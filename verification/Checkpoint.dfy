/**
  The durable runner checkpoint: its schema invariants and every transition between checkpoints.
 */
module Checkpoint {
  import opened Common

  const MAX_COUNT := 1_000_000
  const MAX_REVISION := 1_000_000_000
  const MAX_PID := 4_194_304
  const MAX_PROCESSES := 256

  type Time = nat

  datatype StepPhase = Started | Succeeded | Failed

  datatype StepCheckpoint = StepCheckpoint(attempt: int, id: string, index: int, phase: StepPhase)

  datatype ProcessIdentity = ProcessIdentity(bootId: string, pid: int, processGroupId: int, startTimeTicks: string)

  datatype ExitStatus = ExitStatus(exitCode: Option<int>, signal: Option<string>)

  datatype Outcome = ExitedBeforeAcceptance | ExitedAfterAcceptance | ReconciledMissing | RunnerShutdown

  datatype ProcessPhase = Registered | Accepted | Finished

  datatype Finish = Finish(at: Time, outcome: Outcome, status: ExitStatus)

  datatype Process = Process(
    generation: int,
    identity: ProcessIdentity,
    phase: ProcessPhase,
    registeredAt: Time,
    acceptedAt: Option<Time>,
    finish: Option<Finish>,
    stepId: string,
    stepIndex: int)

  datatype ProcessEvent =
    | Register(generation: int, identity: ProcessIdentity, stepId: string, stepIndex: int)
    | Accept(generation: int, identity: ProcessIdentity, stepId: string, stepIndex: int)
    | FinishEvent(generation: int, identity: ProcessIdentity, stepId: string, stepIndex: int, outcome: Outcome, status: ExitStatus)

  datatype SecretPhase = Prepared | Installed | SourceRemoved | Committed

  datatype SecretTransaction = SecretTransaction(destination: string, phase: SecretPhase, secretId: string, stepId: string)

  datatype Diagnostic = Diagnostic(code: string, recovery: string, attempt: Option<int>, status: Option<ExitStatus>, stepId: Option<string>)

  datatype Terminal = TerminalSuccess(at: Time) | TerminalFailure(at: Time, diagnostic: Diagnostic)

  datatype RunnerCheckpoint = RunnerCheckpoint(
    currentStep: Option<StepCheckpoint>,
    processes: seq<Process>,
    plan: string,
    revision: int,
    secret: Option<SecretTransaction>,
    terminal: Option<Terminal>,
    updatedAt: Time)

  datatype Rejection = SchemaRejected | TransitionRejected

  type Transition = Result<RunnerCheckpoint, Rejection>

  // ---- Schema ----

  predicate StepOk(s: StepCheckpoint) { 1 <= s.attempt <= MAX_COUNT && 0 <= s.index <= MAX_COUNT }

  predicate IdentityOk(i: ProcessIdentity) { 2 <= i.pid <= MAX_PID && i.processGroupId == i.pid }

  predicate ExitOk(e: ExitStatus) { e.exitCode.Some? ==> 0 <= e.exitCode.value <= 255 }

  /** An early exit was never accepted, and a later exit was. */
  predicate OutcomeFits(outcome: Outcome, acceptedAt: Option<Time>) {
    && (outcome == ExitedBeforeAcceptance ==> acceptedAt.None?)
    && (outcome == ExitedAfterAcceptance ==> acceptedAt.Some?)
  }

  predicate ProcessOk(p: Process) {
    && 1 <= p.generation <= MAX_COUNT && IdentityOk(p.identity) && 0 <= p.stepIndex <= MAX_COUNT
    && match p.phase
       case Registered => p.acceptedAt.None? && p.finish.None?
       case Accepted => p.acceptedAt.Some? && p.finish.None?
       case Finished => p.finish.Some? && OutcomeFits(p.finish.value.outcome, p.acceptedAt) && ExitOk(p.finish.value.status)
  }

  predicate DiagnosticOk(d: Diagnostic) {
    && (d.attempt.Some? ==> 1 <= d.attempt.value <= MAX_COUNT)
    && (d.status.Some? ==> ExitOk(d.status.value))
  }

  predicate Pristine(c: RunnerCheckpoint) {
    c.currentStep.None? && c.processes == [] && c.secret.None? && c.terminal.None?
  }

  predicate SecretFits(c: RunnerCheckpoint) {
    c.secret.Some? ==>
      && c.currentStep.Some? && c.secret.value.stepId == c.currentStep.value.id
      && (c.currentStep.value.phase == Succeeded ==> c.secret.value.phase == Committed)
  }

  predicate TerminalFits(c: RunnerCheckpoint) {
    c.terminal.Some? ==>
      && c.terminal.value.at == c.updatedAt
      && (forall p | p in c.processes :: p.phase == Finished)
      && (c.terminal.value.TerminalSuccess? ==>
            && (c.currentStep.Some? ==> c.currentStep.value.phase == Succeeded)
            && (c.secret.Some? ==> c.secret.value.phase == Committed))
  }

  predicate DistinctProcesses(ps: seq<Process>) {
    forall i, j | 0 <= i < j < |ps| :: ps[i].stepId != ps[j].stepId && ps[i].stepIndex != ps[j].stepIndex
  }

  /** What the field parsers accept. */
  predicate FieldsOk(c: RunnerCheckpoint) {
    && (c.currentStep.Some? ==> StepOk(c.currentStep.value))
    && |c.processes| <= MAX_PROCESSES && (forall p | p in c.processes :: ProcessOk(p))
    && 0 <= c.revision <= MAX_REVISION
    && (c.terminal.Some? && c.terminal.value.TerminalFailure? ==> DiagnosticOk(c.terminal.value.diagnostic))
  }

  /** What `validateCheckpointInvariants` accepts. */
  predicate InvariantsOk(c: RunnerCheckpoint) {
    && (c.revision == 0 <==> Pristine(c))
    && SecretFits(c) && TerminalFits(c) && DistinctProcesses(c.processes)
  }

  predicate Valid(c: RunnerCheckpoint) { FieldsOk(c) && InvariantsOk(c) }

  /** The loop over processes with its two sets of names seen so far. */
  method ValidateInvariants(c: RunnerCheckpoint) returns (accepted: bool)
    ensures accepted <==> InvariantsOk(c)
  {
    if (c.revision == 0) != Pristine(c) { return false; }
    if c.secret.Some? {
      if c.currentStep.None? { return false; }
      if c.secret.value.stepId != c.currentStep.value.id { return false; }
      if c.currentStep.value.phase == Succeeded && c.secret.value.phase != Committed { return false; }
    }
    if c.terminal.Some? && c.terminal.value.TerminalSuccess? {
      if c.currentStep.Some? && c.currentStep.value.phase != Succeeded { return false; }
      if c.secret.Some? && c.secret.value.phase != Committed { return false; }
    }
    if c.terminal.Some? && c.terminal.value.at != c.updatedAt { return false; }
    if c.terminal.Some? && exists p | p in c.processes :: p.phase != Finished { return false; }
    var ids: set<string>, indexes: set<int> := {}, {};
    for i := 0 to |c.processes|
      invariant ids == set k | 0 <= k < i :: c.processes[k].stepId
      invariant indexes == set k | 0 <= k < i :: c.processes[k].stepIndex
      invariant DistinctProcesses(c.processes[..i])
    {
      var p := c.processes[i];
      if p.stepId in ids {
        var k :| 0 <= k < i && c.processes[k].stepId == p.stepId;
        assert !DistinctProcesses(c.processes);
        return false;
      }
      if p.stepIndex in indexes {
        var k :| 0 <= k < i && c.processes[k].stepIndex == p.stepIndex;
        assert !DistinctProcesses(c.processes);
        return false;
      }
      ids, indexes := ids + {p.stepId}, indexes + {p.stepIndex};
      assert c.processes[..i + 1] == c.processes[..i] + [p];
    }
    assert c.processes[..|c.processes|] == c.processes;
    return true;
  }

  function Parse(c: RunnerCheckpoint): Transition {
    if Valid(c) then Ok(c) else Err(SchemaRejected)
  }

  // ---- Transitions ----

  function Initial(plan: string, now: Time): RunnerCheckpoint {
    RunnerCheckpoint(None, [], plan, 0, None, None, now)
  }

  /** `patched` is the old state with the changed fields already replaced. */
  function Changed(patched: RunnerCheckpoint, now: Time): Transition {
    Parse(patched.(revision := patched.revision + 1, updatedAt := now))
  }

  /** The first process of the step, or the length of the list. */
  function ProcessIndex(ps: seq<Process>, stepId: string): (i: nat)
    ensures i <= |ps|
    ensures i < |ps| ==> ps[i].stepId == stepId
    ensures forall k | 0 <= k < i :: ps[k].stepId != stepId
  {
    if ps == [] || ps[0].stepId == stepId then 0 else 1 + ProcessIndex(ps[1..], stepId)
  }

  function FindProcess(ps: seq<Process>, stepId: string): Option<Process> {
    var i := ProcessIndex(ps, stepId);
    if i < |ps| then Some(ps[i]) else None
  }

  predicate SameProcess(p: Process, e: ProcessEvent) {
    p.generation == e.generation && p.stepId == e.stepId && p.stepIndex == e.stepIndex && p.identity == e.identity
  }

  function StoreProcess(ps: seq<Process>, p: Process): seq<Process> {
    var i := ProcessIndex(ps, p.stepId);
    if i < |ps| then ps[i := p] else ps + [p]
  }

  /** The process record an event leads to. */
  function NextRecord(current: Option<Process>, e: ProcessEvent, now: Time): Process
    requires current.None? ==> e.Register?
  {
    match e
    case Register(generation, identity, stepId, stepIndex) =>
      Process(generation, identity, Registered, now, None, None, stepId, stepIndex)
    case Accept(_, _, _, _) => current.value.(acceptedAt := Some(now), phase := Accepted)
    case FinishEvent(_, _, _, _, outcome, status) =>
      current.value.(finish := Some(Finish(now, outcome, status)), phase := Finished)
  }

  function WithRecord(c: RunnerCheckpoint, p: Process): RunnerCheckpoint {
    c.(processes := StoreProcess(c.processes, p))
  }

  function TransitionProcess(c: RunnerCheckpoint, e: ProcessEvent, now: Time): Transition {
    var current := FindProcess(c.processes, e.stepId);
    match e
    case Register(generation, identity, stepId, stepIndex) =>
      if c.terminal.Some? then Err(TransitionRejected)
      else if generation != (if current.Some? then current.value.generation + 1 else 1) then Err(TransitionRejected)
      else if current.Some? && current.value.phase != Finished then Err(TransitionRejected)
      else Changed(WithRecord(c, NextRecord(current, e, now)), now)
    case Accept(_, _, _, _) =>
      if current.None? || !SameProcess(current.value, e) || c.terminal.Some? then Err(TransitionRejected)
      else if current.value.phase == Accepted then Ok(c)
      else if current.value.phase != Registered then Err(TransitionRejected)
      else Changed(WithRecord(c, NextRecord(current, e, now)), now)
    case FinishEvent(_, _, _, _, outcome, status) =>
      if current.None? || !SameProcess(current.value, e) || c.terminal.Some? then Err(TransitionRejected)
      else if current.value.phase == Finished then
        if current.value.finish.Some? && current.value.finish.value.outcome == outcome && current.value.finish.value.status == status
        then Ok(c) else Err(TransitionRejected)
      else Changed(WithRecord(c, NextRecord(current, e, now)), now)
  }

  predicate SecretOpen(c: RunnerCheckpoint) { c.secret.Some? && c.secret.value.phase != Committed }

  function TransitionStep(c: RunnerCheckpoint, target: StepCheckpoint, now: Time): Transition {
    if c.terminal.Some? then Err(TransitionRejected)
    else if c.currentStep.None? then
      if target.index != 0 || target.attempt != 1 || target.phase != Started then Err(TransitionRejected)
      else Changed(c.(currentStep := Some(target)), now)
    else
      var current := c.currentStep.value;
      if current == target then Ok(c)
      else if current.id == target.id && current.index == target.index then
        var completes := current.phase == Started && target.attempt == current.attempt && target.phase != Started;
        var retries := current.phase == Failed && target.phase == Started && target.attempt == current.attempt + 1;
        if !completes && !retries then Err(TransitionRejected)
        else if target.phase == Succeeded && SecretOpen(c) then Err(TransitionRejected)
        else Changed(c.(currentStep := Some(target)), now)
      else if !(current.phase == Succeeded && target.index == current.index + 1 && target.attempt == 1 && target.phase == Started)
      then Err(TransitionRejected)
      else if SecretOpen(c) then Err(TransitionRejected)
      else Changed(c.(currentStep := Some(target), secret := None), now)
  }

  function PhaseIndex(p: SecretPhase): nat {
    match p case Prepared => 0 case Installed => 1 case SourceRemoved => 2 case Committed => 3
  }

  predicate SameSecret(a: SecretTransaction, b: SecretTransaction) {
    a.destination == b.destination && a.secretId == b.secretId && a.stepId == b.stepId
  }

  function TransitionSecret(c: RunnerCheckpoint, target: SecretTransaction, now: Time): Transition {
    if c.terminal.Some? then Err(TransitionRejected)
    else if c.currentStep.None? || c.currentStep.value.phase != Started || c.currentStep.value.id != target.stepId
    then Err(TransitionRejected)
    else if c.secret.None? then
      if target.phase != Prepared then Err(TransitionRejected) else Changed(c.(secret := Some(target)), now)
    else if !SameSecret(c.secret.value, target) then Err(TransitionRejected)
    else if c.secret.value.phase == target.phase then Ok(c)
    else if PhaseIndex(target.phase) != PhaseIndex(c.secret.value.phase) + 1 then Err(TransitionRejected)
    else Changed(c.(secret := Some(target)), now)
  }

  function TransitionSuccess(c: RunnerCheckpoint, now: Time): Transition {
    if c.terminal.Some? && c.terminal.value.TerminalSuccess? then Ok(c)
    else if c.terminal.Some? then Err(TransitionRejected)
    else if c.currentStep.Some? && c.currentStep.value.phase != Succeeded then Err(TransitionRejected)
    else if SecretOpen(c) then Err(TransitionRejected)
    else Changed(c.(terminal := Some(TerminalSuccess(now))), now)
  }

  function TransitionFailure(c: RunnerCheckpoint, d: Diagnostic, now: Time): Transition {
    if c.terminal.Some? && c.terminal.value.TerminalFailure? && c.terminal.value.diagnostic == d then Ok(c)
    else if c.terminal.Some? then Err(TransitionRejected)
    else Changed(c.(terminal := Some(TerminalFailure(now, d))), now)
  }

  /** One store update. */
  datatype Event =
    | StepEvent(step: StepCheckpoint)
    | ProcessUpdate(process: ProcessEvent)
    | SecretEvent(secret: SecretTransaction)
    | MarkSucceeded
    | MarkFailed(diagnostic: Diagnostic)

  function Apply(c: RunnerCheckpoint, e: Event, now: Time): Transition {
    match e
    case StepEvent(s) => TransitionStep(c, s, now)
    case ProcessUpdate(p) => TransitionProcess(c, p, now)
    case SecretEvent(s) => TransitionSecret(c, s, now)
    case MarkSucceeded => TransitionSuccess(c, now)
    case MarkFailed(d) => TransitionFailure(c, d, now)
  }

  // ---- What a transition accepts, exactly ----

  /** The forward moves of the step sequence, as a relation on (index, attempt, phase). */
  predicate StepMove(c: RunnerCheckpoint, t: StepCheckpoint) {
    match c.currentStep
    case None => t.index == 0 && t.attempt == 1 && t.phase == Started
    case Some(s) =>
      || (t.id == s.id && t.index == s.index && t.attempt == s.attempt && s.phase == Started
          && (t.phase == Failed || (t.phase == Succeeded && !SecretOpen(c))))
      || (t.id == s.id && t.index == s.index && t.attempt == s.attempt + 1 && s.phase == Failed && t.phase == Started)
      || (t.index == s.index + 1 && t.attempt == 1 && s.phase == Succeeded && t.phase == Started)
  }

  /** The schema never rejects a step update that its guards let through, short of the numeric limits. */
  lemma StepAcceptedExactly(c: RunnerCheckpoint, t: StepCheckpoint, now: Time)
    requires Valid(c)
    ensures TransitionStep(c, t, now).Ok? <==>
      && c.terminal.None?
      && (c.currentStep == Some(t) || (StepMove(c, t) && StepOk(t) && c.revision < MAX_REVISION))
  {}

  /** Likewise a secret update: its guards alone keep the schema's invariants. */
  lemma SecretAcceptedExactly(c: RunnerCheckpoint, t: SecretTransaction, now: Time)
    requires Valid(c)
    ensures TransitionSecret(c, t, now).Ok? <==>
      && c.terminal.None? && c.currentStep.Some?
      && c.currentStep.value.phase == Started && c.currentStep.value.id == t.stepId
      && (|| c.secret == Some(t)
          || (c.secret.None? && t.phase == Prepared && c.revision < MAX_REVISION)
          || (c.secret.Some? && SameSecret(c.secret.value, t) && c.revision < MAX_REVISION
              && PhaseIndex(t.phase) == PhaseIndex(c.secret.value.phase) + 1))
  {
    if c.secret.Some? && SameSecret(c.secret.value, t) && c.secret.value.phase == t.phase {
      assert c.secret.value == t;
    }
  }

  lemma StoredProcesses(ps: seq<Process>, p: Process)
    requires DistinctProcesses(ps)
    requires FindProcess(ps, p.stepId).None? ==> forall q | q in ps :: q.stepIndex != p.stepIndex
    requires FindProcess(ps, p.stepId).Some? ==> FindProcess(ps, p.stepId).value.stepIndex == p.stepIndex
    ensures DistinctProcesses(StoreProcess(ps, p))
  {}

  /** A process update that may run under a finished or accepted generation. */
  predicate FinishFits(c: RunnerCheckpoint, e: ProcessEvent)
    requires e.FinishEvent?
  {
    var current := FindProcess(c.processes, e.stepId);
    && current.Some? && SameProcess(current.value, e)
    && if current.value.phase == Finished
       then current.value.finish.Some? && current.value.finish.value.outcome == e.outcome
            && current.value.finish.value.status == e.status
       else OutcomeFits(e.outcome, current.value.acceptedAt) && ExitOk(e.status) && c.revision < MAX_REVISION
  }

  /**
    The schema does reject some finishes the guards let through: exactly those whose outcome
    contradicts whether the process was accepted.
   */
  lemma FinishAcceptedExactly(c: RunnerCheckpoint, e: ProcessEvent, now: Time)
    requires Valid(c) && e.FinishEvent?
    ensures TransitionProcess(c, e, now).Ok? <==> c.terminal.None? && FinishFits(c, e)
  {
    var current := FindProcess(c.processes, e.stepId);
    if c.terminal.None? && current.Some? && SameProcess(current.value, e) && current.value.phase != Finished {
      var next := NextRecord(current, e, now);
      assert current.value in c.processes;
      StoredProcesses(c.processes, next);
      assert next in StoreProcess(c.processes, next) by {
        assert StoreProcess(c.processes, next)[ProcessIndex(c.processes, next.stepId)] == next;
      }
    }
  }

  /** The witness: an exit after acceptance reported for a process that is only registered. */
  lemma RegisteredExitRejected(c: RunnerCheckpoint, e: ProcessEvent, now: Time)
    requires Valid(c) && e.FinishEvent? && e.outcome == ExitedAfterAcceptance
    requires FindProcess(c.processes, e.stepId).Some? && FindProcess(c.processes, e.stepId).value.phase == Registered
    ensures TransitionProcess(c, e, now).Err?
  {
    var p := FindProcess(c.processes, e.stepId).value;
    assert p in c.processes;
    FinishAcceptedExactly(c, e, now);
  }

  /**
    The three updates that lead there: step 0 is started, its process is registered, and the
    process is reported to have exited after an acceptance that never came.
   */
  lemma RegisteredExitHistory(plan: string, now: Time, identity: ProcessIdentity, status: ExitStatus)
    returns (started: RunnerCheckpoint, registered: RunnerCheckpoint, exited: ProcessEvent)
    requires IdentityOk(identity) && ExitOk(status)
    ensures Apply(Initial(plan, now), StepEvent(StepCheckpoint(1, "serve", 0, Started)), now) == Ok(started)
    ensures Apply(started, ProcessUpdate(Register(1, identity, "serve", 0)), now) == Ok(registered)
    ensures exited == FinishEvent(1, identity, "serve", 0, ExitedAfterAcceptance, status)
    ensures |registered.processes| == 1 && SameProcess(registered.processes[0], exited)
    ensures Apply(registered, ProcessUpdate(exited), now) == Err(SchemaRejected)
  {
    started := Initial(plan, now).(currentStep := Some(StepCheckpoint(1, "serve", 0, Started)), revision := 1);
    var p := NextRecord(None, Register(1, identity, "serve", 0), now);
    assert StoreProcess([], p) == [p];
    registered := started.(processes := [p], revision := 2);
    assert Valid(started) && Valid(registered);
    exited := FinishEvent(1, identity, "serve", 0, ExitedAfterAcceptance, status);
    var q := NextRecord(Some(p), exited, now);
    assert StoreProcess([p], q) == [q];
    assert q in [q];
  }

  predicate IndexUnclaimed(ps: seq<Process>, stepId: string, stepIndex: int) {
    forall q | q in ps && q.stepId != stepId :: q.stepIndex != stepIndex
  }

  lemma StoreDistinct(ps: seq<Process>, p: Process)
    requires DistinctProcesses(ps)
    ensures DistinctProcesses(StoreProcess(ps, p)) <==> IndexUnclaimed(ps, p.stepId, p.stepIndex)
  {
    var qs, i := StoreProcess(ps, p), ProcessIndex(ps, p.stepId);
    assert qs[i] == p;
    if !IndexUnclaimed(ps, p.stepId, p.stepIndex) {
      var k :| 0 <= k < |ps| && ps[k].stepId != p.stepId && ps[k].stepIndex == p.stepIndex;
      assert qs[k] == ps[k] && k != i;
    }
  }

  lemma StoreMembers(ps: seq<Process>, p: Process)
    ensures p in StoreProcess(ps, p)
    ensures forall q | q in StoreProcess(ps, p) :: q == p || q in ps
    ensures |StoreProcess(ps, p)| == |ps| + if FindProcess(ps, p.stepId).None? then 1 else 0
  {
    assert StoreProcess(ps, p)[ProcessIndex(ps, p.stepId)] == p;
  }

  /** What the schema asks of a registration that the guards let through. */
  lemma RegisterSchema(c: RunnerCheckpoint, next: Process, now: Time)
    requires Valid(c) && c.terminal.None? && next.phase == Registered && next.acceptedAt.None? && next.finish.None?
    requires next.generation >= 1
    ensures Changed(c.(processes := StoreProcess(c.processes, next)), now).Ok? <==>
      && c.revision < MAX_REVISION && next.generation <= MAX_COUNT && IdentityOk(next.identity)
      && 0 <= next.stepIndex <= MAX_COUNT && IndexUnclaimed(c.processes, next.stepId, next.stepIndex)
      && (FindProcess(c.processes, next.stepId).None? ==> |c.processes| < MAX_PROCESSES)
  {
    StoreDistinct(c.processes, next);
    StoreMembers(c.processes, next);
  }

  /** A new generation is accepted exactly when it is the successor of a finished one, or the first. */
  lemma RegisterAcceptedExactly(c: RunnerCheckpoint, e: ProcessEvent, now: Time)
    requires Valid(c) && e.Register?
    ensures TransitionProcess(c, e, now).Ok? <==>
      var current := FindProcess(c.processes, e.stepId);
      && c.terminal.None? && c.revision < MAX_REVISION && e.generation <= MAX_COUNT && IdentityOk(e.identity)
      && 0 <= e.stepIndex <= MAX_COUNT && IndexUnclaimed(c.processes, e.stepId, e.stepIndex)
      && if current.None? then e.generation == 1 && |c.processes| < MAX_PROCESSES
         else current.value.phase == Finished && e.generation == current.value.generation + 1
  {
    var current := FindProcess(c.processes, e.stepId);
    if current.Some? { assert current.value in c.processes; }
    var next := NextRecord(current, e, now);
    if e.generation >= 1 && c.terminal.None? { RegisterSchema(c, next, now); }
  }

  /** Terminal success is accepted exactly when the steps, the secret and every process are done. */
  lemma SuccessAcceptedExactly(c: RunnerCheckpoint, now: Time)
    requires Valid(c)
    ensures TransitionSuccess(c, now).Ok? <==>
      || (c.terminal.Some? && c.terminal.value.TerminalSuccess?)
      || (&& c.terminal.None? && c.revision < MAX_REVISION && !SecretOpen(c)
          && (c.currentStep.Some? ==> c.currentStep.value.phase == Succeeded)
          && forall p | p in c.processes :: p.phase == Finished)
  {}

  lemma FailureAcceptedExactly(c: RunnerCheckpoint, d: Diagnostic, now: Time)
    requires Valid(c)
    ensures TransitionFailure(c, d, now).Ok? <==>
      || (c.terminal.Some? && c.terminal.value.TerminalFailure? && c.terminal.value.diagnostic == d)
      || (&& c.terminal.None? && c.revision < MAX_REVISION && DiagnosticOk(d)
          && forall p | p in c.processes :: p.phase == Finished)
  {}

  // ---- What every transition keeps ----

  /** An accepted update yields a valid checkpoint that is one revision further on, or the same one. */
  lemma ApplyAdvances(c: RunnerCheckpoint, e: Event, now: Time)
    requires Valid(c)
    requires Apply(c, e, now).Ok?
    ensures Valid(Apply(c, e, now).value)
    ensures Apply(c, e, now).value == c || Apply(c, e, now).value.revision == c.revision + 1
    ensures c.terminal.Some? ==> Apply(c, e, now).value == c
  {}

  /** A run of accepted updates, newest last. */
  datatype History = Start(first: RunnerCheckpoint) | Then(prior: History, event: Event, now: Time) {
    ghost function Latest(): RunnerCheckpoint {
      match this
      case Start(c) => c
      case Then(prior, event, now) =>
        var r := Apply(prior.Latest(), event, now);
        if r.Ok? then r.value else prior.Latest()
    }

    /** The generations registered for one step, in order. */
    ghost function Generations(stepId: string): seq<int> {
      match this
      case Start(_) => []
      case Then(prior, event, now) =>
        var r := Apply(prior.Latest(), event, now);
        if r.Ok? && event.ProcessUpdate? && event.process.Register? && event.process.stepId == stepId
        then prior.Generations(stepId) + [event.process.generation]
        else prior.Generations(stepId)
    }
  }

  function CurrentGeneration(c: RunnerCheckpoint, stepId: string): int {
    var p := FindProcess(c.processes, stepId);
    if p.Some? then p.value.generation else 0
  }

  lemma StoreFind(ps: seq<Process>, p: Process, id: string)
    ensures FindProcess(StoreProcess(ps, p), id) == if id == p.stepId then Some(p) else FindProcess(ps, id)
  {
    var qs := StoreProcess(ps, p);
    var i, k := ProcessIndex(ps, p.stepId), ProcessIndex(qs, id);
    assert qs[i] == p;
    var j := ProcessIndex(ps, id);
    if id == p.stepId {
      assert k == i;
    } else if j < |ps| {
      assert qs[j] == ps[j];
      assert k == j;
    } else {
      assert forall m | 0 <= m < |qs| :: qs[m].stepId != id;
    }
  }

  /** A process update replaces one record and leaves the rest of the checkpoint alone. */
  lemma ProcessEffect(c: RunnerCheckpoint, e: ProcessEvent, now: Time, id: string)
    requires TransitionProcess(c, e, now).Ok?
    ensures
      var d, before := TransitionProcess(c, e, now).value, FindProcess(c.processes, e.stepId);
      && d.currentStep == c.currentStep && d.secret == c.secret && d.terminal == c.terminal && d.plan == c.plan
      && (e.Register? || before.Some?)
      && (id != e.stepId ==> FindProcess(d.processes, id) == FindProcess(c.processes, id))
      && (d != c ==> d.processes == StoreProcess(c.processes, NextRecord(before, e, now)))
      && (d != c ==> FindProcess(d.processes, e.stepId) == Some(NextRecord(before, e, now)))
  {
    var d, before := TransitionProcess(c, e, now).value, FindProcess(c.processes, e.stepId);
    if d != c {
      StoreFind(c.processes, NextRecord(before, e, now), id);
      StoreFind(c.processes, NextRecord(before, e, now), e.stepId);
    }
  }

  /** An update changes the record of one step only, and moves that record forward. */
  lemma RecordsMoveForward(c: RunnerCheckpoint, e: Event, now: Time, id: string)
    requires Valid(c) && Apply(c, e, now).Ok?
    ensures
      var before, after := FindProcess(c.processes, id), FindProcess(Apply(c, e, now).value.processes, id);
      || after == before
      || (after.Some? && after.value.phase == Registered && e.ProcessUpdate? && e.process.Register? && e.process.stepId == id
          && after.value.generation == CurrentGeneration(c, id) + 1 && (before.Some? ==> before.value.phase == Finished))
      || (before.Some? && after.Some? && before.value.phase != Finished && after.value.generation == before.value.generation
          && after.value.identity == before.value.identity && after.value.phase != Registered)
    ensures e.ProcessUpdate? && e.process.Register? && e.process.stepId == id ==>
      CurrentGeneration(Apply(c, e, now).value, id) == e.process.generation == CurrentGeneration(c, id) + 1
    ensures !(e.ProcessUpdate? && e.process.Register? && e.process.stepId == id) ==>
      CurrentGeneration(Apply(c, e, now).value, id) == CurrentGeneration(c, id)
  {
    if e.ProcessUpdate? { ProcessEffect(c, e.process, now, id); }
  }

  lemma {:induction false} HistoryIsValid(h: History, plan: string, now: Time)
    requires First(h) == Initial(plan, now)
    ensures Valid(h.Latest())
  {
    match h
    case Start(c) =>
    case Then(prior, event, at) =>
      HistoryIsValid(prior, plan, now);
      if Apply(prior.Latest(), event, at).Ok? { ApplyAdvances(prior.Latest(), event, at); }
  }

  function First(h: History): RunnerCheckpoint {
    match h case Start(c) => c case Then(prior, _, _) => First(prior)
  }

  /**
    Over any sequence of updates, accepted or rejected, the generations recorded for a step are
    1, 2, 3, ... without a gap, and the newest one is the one on record.
   */
  lemma {:induction false} GenerationsAreConsecutive(h: History, plan: string, now: Time, id: string)
    requires First(h) == Initial(plan, now)
    ensures |h.Generations(id)| == CurrentGeneration(h.Latest(), id)
    ensures forall i | 0 <= i < |h.Generations(id)| :: h.Generations(id)[i] == i + 1
  {
    match h
    case Start(c) =>
    case Then(prior, event, at) =>
      GenerationsAreConsecutive(prior, plan, now, id);
      HistoryIsValid(prior, plan, now);
      if Apply(prior.Latest(), event, at).Ok? { RecordsMoveForward(prior.Latest(), event, at, id); }
  }
}
