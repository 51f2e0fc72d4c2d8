/**
  The fire-and-forget supervisor and the process lifecycle around it. Spawning, process identity
  and liveness are answered by the host; each answer here is an arbitrary one, and any call may
  be cut short.
 */
module Supervision {
  import opened Common
  import opened Checkpoint
  import opened RunnerStore

  datatype Tracked = Tracked(checkpoint: Process, spawned: bool, result: Option<ExitStatus>)

  datatype Status = LaunchAccepted | LaunchFailed(diagnostic: Diagnostic) | ProcessMissing

  datatype Supervised = Supervised(state: RunnerCheckpoint, status: Status)

  datatype Checked = Checked(state: RunnerCheckpoint, diagnostic: Option<Diagnostic>)

  const FAILED_RESULT := ExitStatus(None, None)

  /** The numeric limits of the schema that an update can run into. */
  ghost predicate AtLimit(c: RunnerCheckpoint) {
    || c.revision == MAX_REVISION
    || |c.processes| == MAX_PROCESSES
    || exists p | p in c.processes :: p.generation == MAX_COUNT
  }

  ghost predicate AllFinished(c: RunnerCheckpoint) { forall p | p in c.processes :: p.phase == Finished }

  /** Process updates leave the step sequence and the terminal state alone. */
  predicate SameStep(c: RunnerCheckpoint, d: RunnerCheckpoint) {
    d.currentStep == c.currentStep && d.secret == c.secret && d.terminal == c.terminal
  }

  function ProcessDiagnostic(code: string, status: Option<ExitStatus>, stepId: string): (d: Diagnostic)
    requires status.Some? ==> ExitOk(status.value)
    ensures DiagnosticOk(d)
  {
    Diagnostic(code, "manual-intervention", None, status, Some(stepId))
  }

  function AcceptOf(p: Process): ProcessEvent { Accept(p.generation, p.identity, p.stepId, p.stepIndex) }
  function FinishOf(p: Process, outcome: Outcome, status: ExitStatus): ProcessEvent {
    FinishEvent(p.generation, p.identity, p.stepId, p.stepIndex, outcome, status)
  }

  ghost predicate OthersUnchanged(c: RunnerCheckpoint, d: RunnerCheckpoint, stepId: string) {
    forall id | id != stepId :: FindProcess(d.processes, id) == FindProcess(c.processes, id)
  }

  lemma NothingChanged(c: RunnerCheckpoint, stepId: string)
    ensures OthersUnchanged(c, c, stepId)
  {}

  /** The plan gives every step its own index, so a new registration never meets a claimed index. */
  lemma RegistrationFits(plan: Plan, c: RunnerCheckpoint, e: ProcessEvent, now: Time)
    requires plan.Ok() && Valid(c) && FollowsPlan(plan, c) && e.Register? && EventFits(plan, c, ProcessUpdate(e))
    requires c.terminal.None? && NoActiveProcess(c, e.stepId) && IdentityOk(e.identity)
    requires e.generation == CurrentGeneration(c, e.stepId) + 1
    ensures TransitionProcess(c, e, now).Err? ==> AtLimit(c)
  {
    RegisterAcceptedExactly(c, e, now);
    var current := FindProcess(c.processes, e.stepId);
    if current.Some? { assert current.value in c.processes; }
  }

  /** A record with its first generation finished, or accepted, per the event. */
  lemma FollowUpFits(c: RunnerCheckpoint, p: Process, now: Time)
    requires Valid(c) && c.terminal.None? && FindProcess(c.processes, p.stepId) == Some(p) && p.phase != Finished
    ensures TransitionProcess(c, AcceptOf(p), now).Err? ==> c.revision == MAX_REVISION
    ensures forall outcome, status | OutcomeFits(outcome, p.acceptedAt) && ExitOk(status) ::
              TransitionProcess(c, FinishOf(p, outcome, status), now).Err? ==> c.revision == MAX_REVISION
  {
    assert p in c.processes;
    forall outcome, status | OutcomeFits(outcome, p.acceptedAt) && ExitOk(status)
      ensures TransitionProcess(c, FinishOf(p, outcome, status), now).Err? ==> c.revision == MAX_REVISION
    {
      FinishAcceptedExactly(c, FinishOf(p, outcome, status), now);
    }
    if p.phase == Registered {
      var next := NextRecord(Some(p), AcceptOf(p), now);
      StoreMembers(c.processes, next);
      StoreDistinct(c.processes, next);
    }
  }

  /** The named processes are finished, no finished one has come back, and no record has appeared. */
  ghost predicate Stopped(before: RunnerCheckpoint, after: RunnerCheckpoint, ids: set<string>) {
    && (forall id | NoActiveProcess(before, id) || id in ids :: NoActiveProcess(after, id))
    && (forall id :: FindProcess(after.processes, id).Some? ==> FindProcess(before.processes, id).Some?)
  }

  lemma NothingStopped(c: RunnerCheckpoint)
    ensures Stopped(c, c, {})
  {}

  lemma StoppedToo(first: RunnerCheckpoint, before: RunnerCheckpoint, after: RunnerCheckpoint, ids: set<string>, id: string)
    requires Stopped(first, before, ids) && OthersUnchanged(before, after, id)
    requires NoActiveProcess(after, id) && FindProcess(before.processes, id).Some?
    ensures Stopped(first, after, ids + {id})
  {
    hide ProcessIndex;
    forall other | NoActiveProcess(first, other) || other in ids + {id} ensures NoActiveProcess(after, other) {
      assert other != id ==> FindProcess(after.processes, other) == FindProcess(before.processes, other);
    }
  }

  /** A valid checkpoint's registered process has not been accepted, and an accepted one has. */
  lemma RegisteredIsUnaccepted(c: RunnerCheckpoint, p: Process)
    requires Valid(c) && FindProcess(c.processes, p.stepId) == Some(p) && p.phase != Finished
    ensures p.phase == Registered <==> p.acceptedAt.None?
  {
    assert p in c.processes;
  }

  class Supervisor {
    const store: Store
    var instances: map<string, Tracked>

    constructor (store: Store)
      ensures this.store == store && instances == map[]
    {
      this.store := store;
      instances := map[];
    }

    /** The tracked process is the accepted process on record. */
    ghost predicate TracksRecord(id: string)
      requires id in instances
      reads this, store
    {
      var t := instances[id];
      && t.checkpoint.stepId == id && t.checkpoint.phase == Accepted
      && FindProcess(store.state.processes, id) == Some(t.checkpoint)
      && (t.result.Some? ==> ExitOk(t.result.value))
    }

    ghost predicate ResultsOk()
      reads this
    {
      forall id | id in instances ::
        instances[id].checkpoint.stepId == id && (instances[id].result.Some? ==> ExitOk(instances[id].result.value))
    }

    /** `state` is the current checkpoint, the run goes on, and every tracked process is accepted. */
    ghost predicate Sound(state: RunnerCheckpoint)
      reads this, store
    {
      && store.Inv() && state == store.state && state.terminal.None?
      && forall id | id in instances :: TracksRecord(id)
    }

    /** The tracked process is the one on record, not yet finished but perhaps only registered. */
    ghost predicate HoldsRecord(id: string)
      requires id in instances
      reads this, store
    {
      var t := instances[id];
      && t.checkpoint.stepId == id && t.checkpoint.phase != Finished
      && FindProcess(store.state.processes, id) == Some(t.checkpoint)
      && (t.result.Some? ==> ExitOk(t.result.value))
    }

    /** What a cancelled acceptance window leaves: every tracked process is the one on record. */
    ghost predicate Held()
      reads this, store
    {
      store.Inv() && store.state.terminal.None? && forall id | id in instances :: HoldsRecord(id)
    }

    /** The same for all tracked processes but one. */
    ghost predicate HeldBeside(id: string)
      reads this, store
    {
      store.Inv() && store.state.terminal.None? && forall i | i in instances && i != id :: HoldsRecord(i)
    }

    /** The end of this tracked process, as it is known, cannot be recorded at shutdown. */
    ghost predicate Unrecordable(id: string)
      requires id in instances
      reads this
    {
      instances[id].checkpoint.phase == Registered && instances[id].result.Some?
    }

    /** All tracked processes but one are tracked as before. */
    twostate predicate OthersTracked(id: string)
      reads this
    {
      forall i | i in old(instances) && i != id :: i in instances && instances[i] == old(instances)[i]
    }

    /** What every method here leaves alone, however it ends. */
    twostate predicate StepsKept()
      reads this, store
    {
      && SameStep(old(store.state), store.state)
      && store.executed == old(store.executed)
    }

    /** A spawned process may have exited by now. */
    method Poll(id: string) returns (result: Option<ExitStatus>)
      requires id in instances
      modifies this`instances
      ensures instances == old(instances)[id := old(instances)[id].(result := result)]
      ensures result == old(instances)[id].result || (result.Some? && ExitOk(result.value))
    {
      var t := instances[id];
      result := t.result;
      if t.spawned && result.None? {
        var exited: bool := *;
        if exited {
          var code: Option<int> := *;
          var signal: Option<string> := *;
          if code.Some? && !(0 <= code.value <= 255) { code := None; }
          result := Some(ExitStatus(code, signal));
        }
      }
      instances := instances[id := t.(result := result)];
    }

    /** A host call: an answer, an error or a stop. */
    method Ask() returns (r: Result<bool, Fault>)
      ensures r.Err? ==> r.error == Crashed || r.error == Interrupted
    {
      var answer: int := *;
      if answer == 0 { return Err(Crashed); }
      if answer == 1 { return Err(Interrupted); }
      return Ok(answer == 2);
    }

    method SurvivesAcceptanceWindow(id: string, cancelable: bool) returns (r: Result<bool, Fault>)
      requires id in instances && (instances[id].result.Some? ==> ExitOk(instances[id].result.value))
      modifies this`instances
      ensures r.Err? ==> r.error == Crashed || r.error == Interrupted
      ensures id in instances && instances == old(instances)[id := instances[id]]
      ensures instances[id] == old(instances)[id].(result := instances[id].result)
      ensures instances[id].result.Some? ==> ExitOk(instances[id].result.value)
    {
      if cancelable {
        var interrupted :- Ask();
        if interrupted { return Err(Interrupted); }
      }
      var result := Poll(id);
      if result.Some? { return Ok(false); }
      r := Ask();
    }

    /** One process update through the store. */
    method Record(e: ProcessEvent) returns (r: Result<RunnerCheckpoint, Fault>)
      requires store.Inv() && EventFits(store.plan, store.state, ProcessUpdate(e))
      modifies store
      ensures store.Inv() && StepsKept() && store.spawned == old(store.spawned)
      ensures OthersUnchanged(old(store.state), store.state, e.stepId)
      ensures r.Ok? ==> r.value == store.state && TransitionProcess(old(store.state), e, store.clock) == Ok(store.state)
      ensures r.Ok? && FindProcess(old(store.state).processes, e.stepId).Some? && store.state != old(store.state) ==>
        FindProcess(store.state.processes, e.stepId) == Some(NextRecord(FindProcess(old(store.state).processes, e.stepId), e, store.clock))
      ensures r.Ok? && e.Register? ==>
        FindProcess(store.state.processes, e.stepId) == Some(NextRecord(FindProcess(old(store.state).processes, e.stepId), e, store.clock))
      ensures r == Err(Rejected) ==> store.state == old(store.state)
      ensures r == Err(Rejected) <==> TransitionProcess(old(store.state), e, store.clock).Err?
      ensures r.Err? ==> r.error != Interrupted
    {
      ghost var before := store.state;
      r := store.Update(ProcessUpdate(e));
      if store.state != before {
        forall id ensures id != e.stepId ==> FindProcess(store.state.processes, id) == FindProcess(before.processes, id) {
          ProcessEffect(before, e, store.clock, id);
        }
        ProcessEffect(before, e, store.clock, e.stepId);
      }
    }

    /** Records the end of a process. */
    method FinishProcess(state: RunnerCheckpoint, p: Process, outcome: Outcome, status: ExitStatus, ghost current: bool)
      returns (r: Result<RunnerCheckpoint, Fault>)
      requires store.Inv() && ExitOk(status)
      requires current ==> state == store.state && state.terminal.None? && p.phase != Finished && OutcomeFits(outcome, p.acceptedAt)
      requires current ==> FindProcess(state.processes, p.stepId) == Some(p)
      modifies store
      ensures store.Inv() && StepsKept() && store.spawned == old(store.spawned)
      ensures r.Ok? && current ==> r.value == store.state && OthersUnchanged(old(store.state), store.state, p.stepId)
      ensures r.Ok? && current ==> NoActiveProcess(store.state, p.stepId)
      ensures r == Err(Rejected) && current ==> AtLimit(store.state)
      ensures r.Err? ==> r.error != Interrupted
      ensures old(OnRecord(p)) ==> (r == Err(Rejected) <==> old(store.state).revision == MAX_REVISION || !OutcomeFits(outcome, p.acceptedAt))
      ensures old(OnRecord(p)) && r.Ok? ==> NoActiveProcess(store.state, p.stepId) && OthersUnchanged(old(store.state), store.state, p.stepId)
      ensures r == Err(Rejected) ==> store.state == old(store.state)
    {
      if p.phase == Finished { return Ok(state); }
      var e := FinishOf(p, outcome, status);
      FinishAcceptedExactly(store.state, e, store.clock);
      ghost var before := store.state;
      r := Record(e);
      FinishAcceptedExactly(before, e, store.clock);
      if current { FollowUpFits(before, p, store.clock); }
    }

    /** The unfinished process is the one on record in an active run. */
    ghost predicate OnRecord(p: Process)
      reads store
    {
      && store.Inv() && store.state.terminal.None? && p.phase != Finished
      && FindProcess(store.state.processes, p.stepId) == Some(p)
    }

    /** The host's part of a launch: the captured identity of a new process group, if it got that far. */
    method Spawn(ghost index: int) returns (r: Result<Option<ProcessIdentity>, Fault>)
      requires store.Inv() && store.state.currentStep.Some? && 0 <= index <= store.state.currentStep.value.index
      requires store.plan.steps[index].kind == FireAndForget && NoActiveProcess(store.state, store.plan.steps[index].id)
      modifies store`spawned
      ensures store.Inv()
      ensures r.Err? ==> r.error == Crashed
      ensures r.Ok? && r.value.Some? ==> IdentityOk(r.value.value)
    {
      var spawns: bool := *;
      if !spawns { return Ok(None); }
      store.LogSpawn(index);
      var captured := Ask();
      if captured == Err(Crashed) { return Err(Crashed); }
      var pid, group: int := *, *;
      // A pid outside the kernel's range is never captured.
      if captured.Err? || !captured.value || group != pid || !(2 <= pid <= MAX_PID) { return Ok(None); }
      var bootId, ticks: string := *, *;
      return Ok(Some(ProcessIdentity(bootId, pid, group, ticks)));
    }

    /** Spawns the next generation of a step's process and registers it. */
    method SpawnRegistered(state: RunnerCheckpoint, stepIndex: nat) returns (r: Result<Option<Process>, Fault>)
      requires Sound(state)
      requires state.currentStep.Some? && stepIndex <= state.currentStep.value.index
      requires state.currentStep.value.phase == Failed ==> stepIndex < state.currentStep.value.index
      requires store.plan.steps[stepIndex].kind == FireAndForget
      requires NoActiveProcess(state, store.plan.steps[stepIndex].id)
      modifies store
      ensures store.Inv() && StepsKept()
      ensures OthersUnchanged(old(store.state), store.state, store.plan.steps[stepIndex].id)
      ensures r == Ok(None) ==> store.state == old(store.state)
      ensures r.Ok? ==> Sound(store.state) && ResultsOk()
      ensures r.Ok? && r.value.Some? ==>
                var p := r.value.value;
                && p.phase == Registered && p.acceptedAt.None? && p.stepId == store.plan.steps[stepIndex].id
                && FindProcess(store.state.processes, p.stepId) == Some(p)
      ensures r == Err(Rejected) ==> AtLimit(store.state)
      ensures r.Err? ==> r.error != Interrupted
    {
      hide LogFits, SpawnsFit, ProcessIndex;
      var id := store.plan.steps[stepIndex].id;
      var prior := FindProcess(state.processes, id);
      InactiveIsUntracked(id);
      var identity :- Spawn(stepIndex);
      if identity.None? { return Ok(None); }
      var e := Register((if prior.Some? then prior.value.generation else 0) + 1, identity.value, id, stepIndex);
      RegistrationFits(store.plan, state, e, store.clock);
      var registered := Record(e);
      if registered.Err? {
        RegistrationFits(store.plan, state, e, store.clock);
        return Err(registered.error);
      }
      forall i | i in instances ensures TracksRecord(i) { assert i != id && old(TracksRecord(i)); }
      return Ok(Some(NextRecord(prior, e, store.clock)));
    }

    /**
      Spawns the next generation of a step's process. A spawn only ever happens when the step has
      no unfinished process, and a returning call leaves every tracked process accepted.
     */
    method Launch(state: RunnerCheckpoint, stepIndex: nat) returns (r: Result<Supervised, Fault>)
      requires Sound(state)
      requires state.currentStep.Some? && stepIndex <= state.currentStep.value.index
      requires state.currentStep.value.phase == Failed ==> stepIndex < state.currentStep.value.index
      requires store.plan.steps[stepIndex].kind == FireAndForget
      requires NoActiveProcess(state, store.plan.steps[stepIndex].id)
      modifies this, store
      ensures ResultsOk()
      ensures store.Inv() && StepsKept()
      ensures r.Ok? ==> Sound(r.value.state)
      ensures r.Ok? ==> r.value.status.LaunchAccepted? || (r.value.status.LaunchFailed? && DiagnosticOk(r.value.status.diagnostic))
      ensures r.Ok? && r.value.status.LaunchFailed? ==> NoActiveProcess(store.state, store.plan.steps[stepIndex].id)
      ensures r.Ok? ==> instances.Keys <= old(instances.Keys) + {store.plan.steps[stepIndex].id}
      ensures r == Err(Rejected) ==> AtLimit(store.state)
      ensures r == Err(Interrupted) ==> Held()
      ensures r == Err(Interrupted) ==> Handed(state.processes)
      ensures r == Err(Interrupted) || (r.Ok? && r.value.status.LaunchAccepted?) ==>
                && instances.Keys == old(instances.Keys) + {store.plan.steps[stepIndex].id}
                && OthersUnchanged(old(store.state), store.state, store.plan.steps[stepIndex].id)
    {
      hide Valid, FollowsPlan, LogFits, SpawnsFit, FindProcess, NoActiveProcess;
      ReachedStep(state, stepIndex);
      var id := store.plan.steps[stepIndex].id;
      InactiveIsUntracked(id);
      DistinctRecords(state);
      var registered :- SpawnRegistered(state, stepIndex);
      if registered.None? {
        return Ok(Supervised(state, LaunchFailed(ProcessDiagnostic("fire-and-forget-launch-failed", None, id))));
      }
      RecordsBeside(state.processes, store.state, id);
      r := AwaitAcceptance(store.state, registered.value, true, true, true);
    }

    lemma ReachedStep(state: RunnerCheckpoint, index: int)
      requires Sound(state) && state.currentStep.Some? && 0 <= index <= state.currentStep.value.index
      ensures index < |store.plan.steps|
    {}

    lemma InactiveIsUntracked(id: string)
      requires Sound(store.state) && NoActiveProcess(store.state, id)
      ensures id !in instances
    {
      assert id in instances ==> TracksRecord(id);
    }

    /** Tracks a registered process through the acceptance window and records how it ended. */
    method AwaitAcceptance(state: RunnerCheckpoint, p: Process, spawned: bool, cancelable: bool, ghost sound: bool)
      returns (r: Result<Supervised, Fault>)
      requires store.Inv() && p.phase == Registered && p.acceptedAt.None?
      requires sound ==> Sound(state) && FindProcess(state.processes, p.stepId) == Some(p) && p.stepId !in instances
      requires ResultsOk()
      modifies this, store
      ensures ResultsOk()
      ensures store.Inv() && StepsKept() && store.spawned == old(store.spawned)
      ensures r.Ok? && sound ==> Sound(r.value.state) && OthersUnchanged(old(store.state), store.state, p.stepId)
      ensures r.Ok? ==> r.value.status.LaunchAccepted? || (r.value.status.LaunchFailed? && DiagnosticOk(r.value.status.diagnostic))
      ensures r.Ok? && r.value.status.LaunchFailed? && sound ==> NoActiveProcess(store.state, p.stepId)
      ensures r.Ok? && r.value.status.LaunchAccepted? ==> instances.Keys == old(instances.Keys) + {p.stepId}
      ensures r.Ok? && r.value.status.LaunchFailed? ==> instances.Keys == old(instances.Keys) - {p.stepId}
      ensures r == Err(Rejected) && sound ==> AtLimit(store.state)
      ensures r == Err(Interrupted) && sound ==> Held()
      ensures old(HeldBeside(p.stepId) && OnRecord(p)) && r.Ok? ==> Held() && OthersUnchanged(old(store.state), store.state, p.stepId)
      ensures old(HeldBeside(p.stepId) && OnRecord(p)) && r.Ok? && !r.value.status.LaunchAccepted? ==> NoActiveProcess(store.state, p.stepId)
      ensures old(HeldBeside(p.stepId) && OnRecord(p)) && r == Err(Rejected) ==> store.state.revision == MAX_REVISION
      ensures r.Ok? ==> OthersTracked(p.stepId)
      ensures r == Err(Interrupted) && sound ==> store.state == old(store.state) && instances.Keys == old(instances.Keys) + {p.stepId}
    {
      hide Valid, FollowsPlan, LogFits, SpawnsFit, FindProcess, NoActiveProcess, OthersUnchanged;
      instances := instances[p.stepId := Tracked(p, spawned, None)];
      var accepted :- SurvivesAcceptanceWindow(p.stepId, cancelable);
      var result := instances[p.stepId].result;
      if !accepted {
        r := Discard(state, p, result, sound);
      } else {
        r := Confirm(state, p, spawned, result, sound);
      }
    }

    /** The process did not survive its acceptance window. */
    method Discard(state: RunnerCheckpoint, p: Process, result: Option<ExitStatus>, ghost sound: bool)
      returns (r: Result<Supervised, Fault>)
      requires store.Inv() && p.phase == Registered && p.acceptedAt.None? && (result.Some? ==> ExitOk(result.value))
      requires sound ==> state == store.state && state.terminal.None? && FindProcess(state.processes, p.stepId) == Some(p)
      requires sound ==> forall id | id in instances && id != p.stepId :: TracksRecord(id)
      requires ResultsOk()
      modifies this, store
      ensures ResultsOk()
      ensures store.Inv() && StepsKept() && store.spawned == old(store.spawned)
      ensures r.Ok? ==> r.value.status.LaunchFailed? && DiagnosticOk(r.value.status.diagnostic)
      ensures r.Ok? && sound ==> Sound(r.value.state) && OthersUnchanged(old(store.state), store.state, p.stepId)
      ensures r.Ok? && sound ==> NoActiveProcess(store.state, p.stepId)
      ensures r.Ok? ==> instances.Keys == old(instances.Keys) - {p.stepId}
      ensures r == Err(Rejected) && sound ==> AtLimit(store.state)
      ensures r.Err? ==> r.error != Interrupted
      ensures old(HeldBeside(p.stepId) && OnRecord(p)) && r.Ok? ==> Held() && OthersUnchanged(old(store.state), store.state, p.stepId)
      ensures old(HeldBeside(p.stepId) && OnRecord(p)) && r.Ok? && !r.value.status.LaunchAccepted? ==> NoActiveProcess(store.state, p.stepId)
      ensures old(HeldBeside(p.stepId) && OnRecord(p)) && r == Err(Rejected) ==> store.state.revision == MAX_REVISION
      ensures r.Ok? ==> OthersTracked(p.stepId)
    {
      hide Valid, FollowsPlan, LogFits, SpawnsFit, ProcessIndex, NoActiveProcess;
      var status := if result.Some? then result.value else FAILED_RESULT;
      var current :- FinishProcess(state, p, ExitedBeforeAcceptance, status, sound);
      instances := instances - {p.stepId};
      return Ok(Supervised(current, LaunchFailed(ProcessDiagnostic("fire-and-forget-early-exit", Some(status), p.stepId))));
    }

    /** The process survived its acceptance window. */
    method Confirm(state: RunnerCheckpoint, p: Process, spawned: bool, result: Option<ExitStatus>, ghost sound: bool)
      returns (r: Result<Supervised, Fault>)
      requires store.Inv() && p.phase == Registered && (result.Some? ==> ExitOk(result.value))
      requires sound ==> state == store.state && state.terminal.None? && FindProcess(state.processes, p.stepId) == Some(p)
      requires sound ==> forall id | id in instances && id != p.stepId :: TracksRecord(id)
      requires ResultsOk()
      modifies this, store
      ensures ResultsOk()
      ensures store.Inv() && StepsKept() && store.spawned == old(store.spawned)
      ensures r.Ok? ==> r.value.status.LaunchAccepted?
      ensures r.Ok? && sound ==> Sound(r.value.state) && OthersUnchanged(old(store.state), store.state, p.stepId)
      ensures r.Ok? ==> instances.Keys == old(instances.Keys) + {p.stepId}
      ensures r == Err(Rejected) && sound ==> AtLimit(store.state)
      ensures r == Err(Interrupted) ==> !sound
      ensures old(HeldBeside(p.stepId) && OnRecord(p)) && r.Ok? ==> Held() && OthersUnchanged(old(store.state), store.state, p.stepId)
      ensures old(HeldBeside(p.stepId) && OnRecord(p)) && r.Ok? && !r.value.status.LaunchAccepted? ==> NoActiveProcess(store.state, p.stepId)
      ensures old(HeldBeside(p.stepId) && OnRecord(p)) && r == Err(Rejected) ==> store.state.revision == MAX_REVISION
      ensures r.Ok? ==> OthersTracked(p.stepId)
    {
      hide FollowsPlan, LogFits, SpawnsFit, ProcessIndex;
      ghost var due := sound || OnRecord(p);
      var updated := Record(AcceptOf(p));
      if due { FollowUpFits(old(store.state), p, store.clock); }
      if updated.Err? { return Err(updated.error); }
      var record := FindProcess(updated.value.processes, p.stepId);
      if record.None? { return Err(Interrupted); }
      instances := instances[p.stepId := Tracked(record.value, spawned, result)];
      return Ok(Supervised(updated.value, LaunchAccepted));
    }

    /** Takes over an unfinished process of an earlier run, or records that it is gone. */
    method Resume(state: RunnerCheckpoint, p: Process, cancelable: bool, ghost sound: bool)
      returns (r: Result<Supervised, Fault>)
      requires store.Inv() && p.phase != Finished && ProcessOk(p)
      requires sound ==> Sound(state) && FindProcess(state.processes, p.stepId) == Some(p) && p.stepId !in instances
      requires ResultsOk()
      modifies this, store
      ensures ResultsOk()
      ensures store.Inv() && StepsKept() && store.spawned == old(store.spawned)
      ensures r.Ok? && sound ==> Sound(r.value.state) && OthersUnchanged(old(store.state), store.state, p.stepId)
      ensures r.Ok? && r.value.status.LaunchFailed? ==> DiagnosticOk(r.value.status.diagnostic)
      ensures r.Ok? && !r.value.status.LaunchAccepted? && sound ==> NoActiveProcess(store.state, p.stepId)
      ensures r.Ok? && r.value.status.LaunchAccepted? ==> instances.Keys == old(instances.Keys) + {p.stepId}
      ensures r.Ok? && !r.value.status.LaunchAccepted? ==> instances.Keys - {p.stepId} == old(instances.Keys) - {p.stepId}
      ensures r == Err(Rejected) && sound ==> AtLimit(store.state)
      ensures r == Err(Interrupted) && sound ==> Held()
      ensures old(Held() && OnRecord(p) && p.stepId !in instances) && r.Ok? ==> Held() && OthersUnchanged(old(store.state), store.state, p.stepId)
      ensures old(Held() && OnRecord(p) && p.stepId !in instances) && r.Ok? && !r.value.status.LaunchAccepted? ==> NoActiveProcess(store.state, p.stepId)
      ensures old(Held() && OnRecord(p) && p.stepId !in instances) && r == Err(Rejected) ==> store.state.revision == MAX_REVISION
      ensures r.Ok? ==> OthersTracked(p.stepId)
      ensures r == Err(Interrupted) && sound ==> store.state == old(store.state) && instances.Keys >= old(instances.Keys)
    {
      hide Valid, FollowsPlan, LogFits, SpawnsFit, ProcessIndex, FindProcess, NoActiveProcess, OthersUnchanged;
      NothingChanged(store.state, p.stepId);
      var matches :- Ask();
      if !matches {
        var current :- FinishProcess(state, p, ReconciledMissing, FAILED_RESULT, sound);
        return Ok(Supervised(current, ProcessMissing));
      }
      if p.phase == Accepted {
        instances := instances[p.stepId := Tracked(p, false, None)];
        return Ok(Supervised(state, LaunchAccepted));
      }
      r := AwaitAcceptance(state, p, false, cancelable, sound);
    }

    /** Records the end of a tracked process and forgets it. */
    method Untrack(state: RunnerCheckpoint, p: Process, outcome: Outcome, status: ExitStatus, ghost sound: bool)
      returns (r: Result<RunnerCheckpoint, Fault>)
      requires store.Inv() && ExitOk(status) && ResultsOk() && outcome != ExitedBeforeAcceptance
      requires sound ==> Sound(state) && p.stepId in instances && instances[p.stepId].checkpoint == p
      modifies this, store
      ensures store.Inv() && StepsKept() && store.spawned == old(store.spawned)
      ensures ResultsOk()
      ensures r.Ok? ==> instances == old(instances) - {p.stepId}
      ensures r.Ok? && sound ==> Sound(r.value) && OthersUnchanged(old(store.state), store.state, p.stepId)
      ensures r.Ok? && sound ==> NoActiveProcess(store.state, p.stepId) && FindProcess(old(store.state).processes, p.stepId).Some?
      ensures r == Err(Rejected) && sound ==> AtLimit(store.state)
      ensures r.Err? ==> instances == old(instances) && r.error != Interrupted
      ensures r == Err(Rejected) ==> store.state == old(store.state)
      ensures old(OnRecord(p)) ==> (r == Err(Rejected) <==> old(store.state).revision == MAX_REVISION || !OutcomeFits(outcome, p.acceptedAt))
      ensures old(Held() && OnRecord(p)) && r.Ok? ==>
                Held() && NoActiveProcess(store.state, p.stepId) && OthersUnchanged(old(store.state), store.state, p.stepId)
    {
      assert sound ==> TracksRecord(p.stepId);
      assert sound ==> ProcessOk(p) by { assert sound ==> p in store.state.processes; }
      ghost var before := store.state;
      var current :- FinishProcess(state, p, outcome, status, sound);
      instances := instances - {p.stepId};
      if sound || old(Held() && OnRecord(p)) {
        forall i | i in instances ensures FindProcess(store.state.processes, i) == FindProcess(before.processes, i) {
          assert i != p.stepId;
        }
      }
      return Ok(current);
    }

    /** Polling leaves every tracked process the accepted one on record. */
    method PollTracked(ghost state: RunnerCheckpoint, id: string) returns (result: Option<ExitStatus>)
      requires Sound(state) && id in instances
      modifies this`instances
      ensures Sound(state) && ResultsOk() && instances.Keys == old(instances.Keys)
      ensures instances[id].checkpoint == old(instances)[id].checkpoint && (result.Some? ==> ExitOk(result.value))
    {
      hide Valid, FollowsPlan, LogFits, SpawnsFit, ProcessIndex;
      assert TracksRecord(id);
      result := Poll(id);
      assert forall i | i in instances :: TracksRecord(i);
    }

    /** Whether one tracked process is still there; if not, its end is recorded. */
    method CheckOne(state: RunnerCheckpoint, id: string) returns (r: Result<Option<Checked>, Fault>)
      requires Sound(state) && id in instances
      modifies this, store
      ensures ResultsOk()
      ensures store.Inv() && StepsKept() && store.spawned == old(store.spawned)
      ensures r.Ok? && r.value.None? ==> Sound(state) && instances.Keys == old(instances.Keys)
      ensures r.Ok? && r.value.Some? ==>
        && Sound(r.value.value.state) && instances.Keys == old(instances.Keys) - {id}
        && r.value.value.diagnostic.Some? && DiagnosticOk(r.value.value.diagnostic.value)
      ensures r == Err(Rejected) ==> AtLimit(store.state)
    {
      hide Valid, FollowsPlan, LogFits, SpawnsFit, ProcessIndex, NoActiveProcess;
      var p := instances[id].checkpoint;
      var result := PollTracked(state, id);
      if result.None? {
        var matches :- Ask();
        if matches { return Ok(None); }
      }
      var status := if result.Some? then result.value else FAILED_RESULT;
      var current :- Untrack(state, p, ExitedAfterAcceptance, status, true);
      return Ok(Some(Checked(current, Some(ProcessDiagnostic("fire-and-forget-process-exited", Some(status), id)))));
    }

    /** Looks for a tracked process that is gone. */
    method CheckHealth(state: RunnerCheckpoint) returns (r: Result<Checked, Fault>)
      requires Sound(state)
      modifies this, store
      ensures ResultsOk()
      ensures store.Inv() && StepsKept() && store.spawned == old(store.spawned)
      ensures r.Ok? ==> Sound(r.value.state) && (r.value.diagnostic.Some? ==> DiagnosticOk(r.value.diagnostic.value))
      ensures r.Ok? ==> instances.Keys <= old(instances.Keys)
      ensures r == Err(Rejected) ==> AtLimit(store.state)
    {
      var pending := instances.Keys;
      while pending != {}
        invariant pending <= instances.Keys == old(instances.Keys)
        invariant Sound(state) && StepsKept() && store.spawned == old(store.spawned)
        decreases pending
      {
        var id :| id in pending;
        pending := pending - {id};
        var gone :- CheckOne(state, id);
        if gone.Some? { return Ok(gone.value); }
      }
      return Ok(Checked(state, None));
    }

    /** Stops one tracked process, or finds that it has exited: how it is to be recorded. */
    method StopProcess(id: string, ghost state: RunnerCheckpoint, ghost sound: bool) returns (r: Result<(Outcome, ExitStatus), Fault>)
      requires ResultsOk() && id in instances && (sound ==> Sound(state))
      modifies this`instances
      ensures id in instances && instances == old(instances)[id := old(instances)[id].(result := instances[id].result)]
      ensures ResultsOk() && (r.Err? ==> r.error == Crashed || r.error == Interrupted)
      ensures old(instances)[id].result.Some? ==> instances[id].result.Some? && r.Ok?
      ensures (sound ==> Sound(state)) && (old(Held()) ==> Held())
      ensures r.Ok? ==> ExitOk(r.value.1)
      ensures r.Ok? ==> r.value.0 == if instances[id].result.Some? then ExitedAfterAcceptance else RunnerShutdown
    {
      hide Valid, FollowsPlan, LogFits, SpawnsFit, ProcessIndex;
      assert (sound ==> TracksRecord(id)) && (Held() ==> HoldsRecord(id));
      var spawned := instances[id].spawned;
      var existing := Poll(id);
      assert sound ==> forall i | i in instances :: TracksRecord(i);
      assert old(Held()) ==> forall i | i in instances :: HoldsRecord(i);
      if existing.Some? { return Ok((ExitedAfterAcceptance, existing.value)); }
      var status := FAILED_RESULT;
      var stopped :- Ask();
      if spawned {
        status := AnyStatus();
      } else if !stopped {
        return Err(Interrupted);
      }
      return Ok((RunnerShutdown, status));
    }

    lemma HeldMeans(id: string)
      requires Held() && id in instances
      ensures OnRecord(instances[id].checkpoint) && instances[id].checkpoint.stepId == id && FindProcess(store.state.processes, id).Some?
      ensures instances[id].checkpoint.phase == Registered <==> instances[id].checkpoint.acceptedAt.None?
    {
      assert HoldsRecord(id);
      RegisteredIsUnaccepted(store.state, instances[id].checkpoint);
    }

    /** Stops one tracked process and records its end. */
    method StopOne(state: RunnerCheckpoint, id: string, ghost sound: bool) returns (r: Result<Checked, Fault>)
      requires store.Inv() && ResultsOk() && id in instances
      requires sound ==> Sound(state)
      modifies this, store
      ensures store.Inv() && StepsKept() && store.spawned == old(store.spawned)
      ensures ResultsOk()
      ensures r.Ok? ==> (r.value.diagnostic.Some? ==> DiagnosticOk(r.value.diagnostic.value))
      ensures r.Ok? ==> instances == old(instances) - {id}
      ensures r.Ok? && sound ==> Sound(r.value.state) && OthersUnchanged(old(store.state), store.state, id)
      ensures r.Ok? && sound ==> NoActiveProcess(store.state, id) && FindProcess(old(store.state).processes, id).Some?
      ensures r == Err(Rejected) && sound ==> AtLimit(store.state)
      ensures old(Held()) && r.Ok? ==>
                && Held() && NoActiveProcess(store.state, id) && OthersUnchanged(old(store.state), store.state, id)
                && FindProcess(old(store.state).processes, id).Some?
      // short of the numeric limit, exactly the exit of a process that was only registered is refused
      ensures old(Held() && Unrecordable(id)) ==> r == Err(Rejected)
      ensures old(Held()) && r == Err(Rejected) ==> store.state.revision == MAX_REVISION || (id in instances && Unrecordable(id))
    {
      hide Valid, FollowsPlan, LogFits, SpawnsFit, FindProcess, NoActiveProcess, Held, Sound, OnRecord;
      var p := instances[id].checkpoint;
      if Held() { HeldMeans(id); }
      var ended :- StopProcess(id, state, sound);
      if Held() { HeldMeans(id); }
      var diagnostic := if ended.0 == ExitedAfterAcceptance
        then Some(ProcessDiagnostic("fire-and-forget-process-exited", Some(ended.1), id)) else None;
      var current :- Untrack(state, p, ended.0, ended.1, sound);
      assert instances == old(instances) - {id};
      return Ok(Checked(current, diagnostic));
    }

    method AnyStatus() returns (status: ExitStatus)
      ensures ExitOk(status)
    {
      var code: Option<int>, signal: Option<string> := *, *;
      if code.Some? && !(0 <= code.value <= 255) { code := None; }
      status := ExitStatus(code, signal);
    }

    /**
      Stops every tracked process and records the end of each. After a cancelled acceptance window,
      short of the numeric limit, exactly the exit of a process that was only registered makes this
      fail with a refused update.
     */
    method Shutdown(state: RunnerCheckpoint, ghost sound: bool) returns (r: Result<Checked, Fault>)
      requires store.Inv() && ResultsOk()
      requires sound ==> Sound(state)
      modifies this, store
      ensures ResultsOk()
      ensures r.Ok? ==> instances == map[]
      ensures store.Inv() && StepsKept() && store.spawned == old(store.spawned)
      ensures r.Ok? ==> r.value.diagnostic.Some? ==> DiagnosticOk(r.value.diagnostic.value)
      ensures r.Ok? && sound ==> r.value.state == store.state
      ensures r.Ok? && (sound || old(Held())) ==> Stopped(old(store.state), store.state, old(instances.Keys))
      ensures r == Err(Rejected) && sound ==> AtLimit(store.state)
      ensures old(Held() && exists id | id in instances :: Unrecordable(id)) ==> r.Err?
      ensures old(Held()) && r == Err(Rejected) ==> store.state.revision == MAX_REVISION || exists id | id in instances :: Unrecordable(id)
    {
      hide Valid, FollowsPlan, LogFits, SpawnsFit, FindProcess, NoActiveProcess, Stopped, Held, OthersUnchanged;
      var current := state;
      var diagnostic: Option<Diagnostic> := None;
      NothingStopped(store.state);
      assert old(instances.Keys) - instances.Keys == {};
      while instances.Keys != {}
        invariant store.Inv() && StepsKept() && store.spawned == old(store.spawned)
        invariant diagnostic.Some? ==> DiagnosticOk(diagnostic.value)
        invariant instances.Keys <= old(instances.Keys) && ResultsOk()
        invariant forall id | id in instances :: instances[id] == old(instances)[id]
        invariant sound ==> Sound(current)
        invariant old(Held()) ==> Held()
        invariant sound || old(Held()) ==> Stopped(old(store.state), store.state, old(instances.Keys) - instances.Keys)
        invariant old(Held()) ==> forall id | id in old(instances) && id !in instances :: !old(Unrecordable(id))
        decreases instances.Keys
      {
        var id :| id in instances;
        ghost var before, keys := store.state, instances.Keys;
        var stopped :- StopOne(current, id, sound);
        current := stopped.state;
        if sound || old(Held()) {
          StoppedToo(old(store.state), before, store.state, old(instances.Keys) - keys, id);
          assert old(instances.Keys) - instances.Keys == (old(instances.Keys) - keys) + {id};
        }
        if diagnostic.None? { diagnostic := stopped.diagnostic; }
      }
      assert old(instances.Keys) - instances.Keys == old(instances.Keys);
      return Ok(Checked(current, diagnostic));
    }

    /** Of the listed processes, the first `n` are tracked or finished and the rest are as listed. */
    ghost predicate Swept(listed: seq<Process>, n: int)
      reads this, store
    {
      forall k | 0 <= k < |listed| ::
        || listed[k].stepId in instances
        || (k < n && NoActiveProcess(store.state, listed[k].stepId))
        || (n <= k && FindProcess(store.state.processes, listed[k].stepId) == Some(listed[k]))
    }

    /** Every record on file is listed or tracked. */
    ghost predicate Covered(listed: seq<Process>)
      reads this, store
    {
      forall id :: FindProcess(store.state.processes, id).Some? ==> FindProcess(listed, id).Some? || id in instances
    }

    /**
      What an interruption hands over to the stop that follows, with the list that the interrupted
      run still knows: every tracked process is on record, and every other one is as listed.
     */
    ghost predicate Handed(listed: seq<Process>)
      reads this, store
    {
      Held() && Swept(listed, 0) && Covered(listed)
    }

    /** The same, but for one step. */
    ghost predicate HandedBeside(listed: seq<Process>, id: string)
      reads this, store
    {
      && (forall k | 0 <= k < |listed| && listed[k].stepId != id ::
            listed[k].stepId in instances || FindProcess(store.state.processes, listed[k].stepId) == Some(listed[k]))
      && (forall other | other != id && FindProcess(store.state.processes, other).Some? ::
            FindProcess(listed, other).Some? || other in instances)
    }

    lemma HandedButOne(listed: seq<Process>, id: string)
      requires Held() && HandedBeside(listed, id) && id in instances
      ensures Handed(listed)
    {}

    ghost predicate AllListed(listed: seq<Process>)
      reads this, store
    {
      forall id :: FindProcess(store.state.processes, id).Some? ==> FindProcess(listed, id).Some?
    }

    /** Takes over one listed process unless it is finished or tracked. */
    method Adopt(state: RunnerCheckpoint, listed: seq<Process>, i: nat, ghost sound: bool)
      returns (r: Result<Checked, Fault>)
      requires store.Inv() && ResultsOk() && i < |listed| && DistinctProcesses(listed) && ProcessOk(listed[i])
      requires sound ==> Sound(state) && Swept(listed, i) && AllListed(listed) && FindProcess(listed, listed[i].stepId).Some?
      modifies this, store
      ensures store.Inv() && StepsKept() && store.spawned == old(store.spawned)
      ensures ResultsOk()
      ensures r.Ok? ==> (r.value.diagnostic.Some? ==> DiagnosticOk(r.value.diagnostic.value))
      ensures r.Ok? && sound ==> Sound(r.value.state) && Swept(listed, i + 1) && AllListed(listed)
      ensures r == Err(Rejected) && sound ==> AtLimit(store.state)
      ensures old(Held() && Swept(listed, i) && Covered(listed)) && r.Ok? ==> Held() && Swept(listed, i + 1) && Covered(listed)
      ensures old(Held() && Swept(listed, i)) && r == Err(Rejected) ==> store.state.revision == MAX_REVISION
      ensures r.Ok? ==> forall id | id in old(instances) :: id in instances && instances[id] == old(instances)[id]
    {
      hide Valid, FollowsPlan, LogFits, SpawnsFit, ProcessIndex;
      var p := listed[i];
      if p.phase == Finished || p.stepId in instances { return Ok(Checked(state, None)); }
      ghost var before, keys := store.state, instances.Keys;
      var resumed :- Resume(state, p, false, sound);
      assert instances.Keys - {p.stepId} == keys - {p.stepId};
      if sound || old(Held() && Swept(listed, i) && Covered(listed)) {
        forall k | 0 <= k < |listed| && k != i
          ensures listed[k].stepId in instances <==> listed[k].stepId in keys
          ensures FindProcess(store.state.processes, listed[k].stepId) == FindProcess(before.processes, listed[k].stepId)
        {
          assert listed[k].stepId != p.stepId;
          assert listed[k].stepId in instances.Keys - {p.stepId} <==> listed[k].stepId in instances;
        }
      }
      return Ok(Checked(resumed.state, if resumed.status.LaunchFailed? then Some(resumed.status.diagnostic) else None));
    }

    /** Takes over every unfinished process that is not tracked yet, then stops them all. */
    method StopAll(state: RunnerCheckpoint, ghost sound: bool) returns (r: Result<Checked, Fault>)
      requires store.Inv() && Valid(state) && ResultsOk()
      requires sound ==> Sound(state)
      modifies this, store
      ensures ResultsOk()
      ensures r.Ok? ==> instances == map[]
      ensures store.Inv() && StepsKept() && store.spawned == old(store.spawned)
      ensures r.Ok? ==> r.value.diagnostic.Some? ==> DiagnosticOk(r.value.diagnostic.value)
      ensures r.Ok? && sound ==> r.value.state == store.state && AllFinished(store.state)
      ensures r == Err(Rejected) && sound ==> AtLimit(store.state)
      ensures old(Handed(state.processes)) && r.Ok? ==> AllFinished(store.state)
      ensures old(Handed(state.processes)) && r == Err(Rejected) ==>
                store.state.revision == MAX_REVISION || exists id | id in instances :: Unrecordable(id)
      ensures old(Handed(state.processes) && exists id | id in instances :: Unrecordable(id)) ==> r.Err?
    {
      var current, listed := state, state.processes;
      var diagnostic: Option<Diagnostic> := None;
      EveryMemberIsFound(listed);
      hide FollowsPlan, LogFits, SpawnsFit, ProcessIndex, Sound;
      for i := 0 to |listed|
        invariant store.Inv() && StepsKept() && store.spawned == old(store.spawned)
        invariant ResultsOk() && (diagnostic.Some? ==> DiagnosticOk(diagnostic.value))
        invariant sound ==> Sound(current) && Swept(listed, i) && AllListed(listed)
        invariant old(Handed(state.processes)) ==> Held() && Swept(listed, i) && Covered(listed)
        invariant forall id | id in old(instances) :: id in instances && instances[id] == old(instances)[id]
      {
        var adopted :- Adopt(current, listed, i, sound);
        current := adopted.state;
        if diagnostic.None? { diagnostic := adopted.diagnostic; }
      }
      ghost var swept, tracked := store.state, instances.Keys;
      var stopped :- Shutdown(current, sound);
      if sound || old(Handed(state.processes)) { SweptThenStopped(listed, swept, store.state, tracked); }
      return Ok(Checked(stopped.state, if stopped.diagnostic.Some? then stopped.diagnostic else diagnostic));
    }

    /** Every tracked step is one of the first `n` steps. */
    ghost predicate TracksBelow(n: int)
      reads this
    {
      KeysBelow(store.plan, instances.Keys, n)
    }

    /** Whether the process was recorded during the current boot. */
    method IsCurrentBoot(p: Process) returns (r: Result<bool, Fault>)
      ensures r.Err? ==> r.error == Crashed || r.error == Interrupted
    {
      r := Ask();
    }

    /**
      At the start of a run: every completed fire-and-forget step gets its process back, either
      the recorded one or a new generation.
     */
    method ReconcileCompleted(state: RunnerCheckpoint) returns (r: Result<Checked, Fault>)
      requires Sound(state) && instances == map[]
      modifies this, store
      ensures ResultsOk()
      ensures store.Inv() && StepsKept()
      ensures r.Ok? ==> Sound(r.value.state) && TracksBelow(DoneCount(r.value.state))
      ensures r.Ok? && r.value.diagnostic.Some? ==> DiagnosticOk(r.value.diagnostic.value)
      ensures r == Err(Rejected) ==> AtLimit(store.state)
      ensures r == Err(Interrupted) ==> Handed(state.processes)
    {
      var current := state;
      if current.currentStep.None? { return Ok(Checked(current, None)); }
      DistinctRecords(state);
      EveryMemberIsFound(state.processes);
      for index := 0 to DoneCount(state)
        invariant store.Inv() && StepsKept() && Sound(current) && TracksBelow(index) && Handed(state.processes)
      {
        if store.plan.steps[index].kind == FireAndForget {
          var checked :- ReconcileOne(current, index, state.processes);
          current := checked.state;
          if checked.diagnostic.Some? { return Ok(checked); }
        }
      }
      return Ok(Checked(current, None));
    }

    method ReconcileOne(state: RunnerCheckpoint, index: nat, ghost listed: seq<Process>) returns (r: Result<Checked, Fault>)
      requires Sound(state) && index < DoneCount(state) && TracksBelow(index) && index < |store.plan.steps|
      requires store.plan.steps[index].kind == FireAndForget
      modifies this, store
      ensures ResultsOk()
      ensures store.Inv() && StepsKept()
      ensures r.Ok? ==> Sound(r.value.state) && TracksBelow(index + 1)
      ensures r.Ok? && r.value.diagnostic.Some? ==> DiagnosticOk(r.value.diagnostic.value)
      ensures r == Err(Rejected) ==> AtLimit(store.state)
      ensures old(Handed(listed)) && (r == Err(Interrupted) || (r.Ok? && r.value.diagnostic.None?)) ==> Handed(listed)
    {
      hide FollowsPlan, LogFits, SpawnsFit, ProcessIndex;
      var current := state;
      var id := store.plan.steps[index].id;
      var process := FindProcess(current.processes, id);
      FindsMember(current.processes, id);
      KeysGrow(store.plan, instances.Keys, instances.Keys, index);
      if process.None? {
        return Ok(Checked(current, Some(ProcessDiagnostic("fire-and-forget-reconciliation-failed", None, id))));
      }
      var p := process.value;
      if p.phase != Finished {
        var sameBoot :- IsCurrentBoot(p);
        ghost var keys := instances.Keys;
        var resumed :- Resume(current, p, true, true);
        KeysGrow(store.plan, keys, instances.Keys, index);
        current := resumed.state;
        if resumed.status.LaunchAccepted? { return Ok(Checked(current, None)); }
        if sameBoot { return Ok(Checked(current, Some(ProcessDiagnostic("fire-and-forget-process-exited", None, id)))); }
      } else if p.finish.value.outcome != RunnerShutdown {
        var sameBoot :- IsCurrentBoot(p);
        if sameBoot { return Ok(Checked(current, Some(ProcessDiagnostic("fire-and-forget-process-exited", None, id)))); }
      }
      r := Relaunch(current, index, listed);
    }

    method Relaunch(state: RunnerCheckpoint, index: nat, ghost listed: seq<Process>) returns (r: Result<Checked, Fault>)
      requires Sound(state) && index < DoneCount(state) && TracksBelow(index + 1)
      requires store.plan.steps[index].kind == FireAndForget && NoActiveProcess(state, store.plan.steps[index].id)
      modifies this, store
      ensures ResultsOk()
      ensures store.Inv() && StepsKept()
      ensures r.Ok? ==> Sound(r.value.state) && TracksBelow(index + 1)
      ensures r.Ok? && r.value.diagnostic.Some? ==> DiagnosticOk(r.value.diagnostic.value)
      ensures r == Err(Rejected) ==> AtLimit(store.state)
      ensures old(HandedBeside(listed, store.plan.steps[index].id)) && (r == Err(Interrupted) || (r.Ok? && r.value.diagnostic.None?)) ==>
                Handed(listed)
    {
      hide FollowsPlan, LogFits, SpawnsFit, FindProcess;
      var launched := Launch(state, index);
      if launched == Err(Interrupted) || (launched.Ok? && launched.value.status.LaunchAccepted?) {
        if old(HandedBeside(listed, store.plan.steps[index].id)) { HandedButOne(listed, store.plan.steps[index].id); }
      }
      if launched.Err? { return Err(launched.error); }
      if launched.value.status.LaunchFailed? {
        return Ok(Checked(launched.value.state, Some(launched.value.status.diagnostic.(code := "fire-and-forget-reconciliation-failed"))));
      }
      return Ok(Checked(launched.value.state, None));
    }

    /** A started fire-and-forget step of an earlier run: its process is taken over or relaunched. */
    method ResumeStarted(state: RunnerCheckpoint, index: nat) returns (r: Result<Supervised, Fault>)
      requires Sound(state) && TracksBelow(index)
      requires state.currentStep.Some? && state.currentStep.value.index == index && state.currentStep.value.phase == Started
      requires store.plan.steps[index].kind == FireAndForget
      modifies this, store
      ensures ResultsOk()
      ensures store.Inv() && StepsKept()
      ensures r.Ok? ==> Sound(r.value.state) && TracksBelow(index + 1)
      ensures r.Ok? && r.value.status.LaunchFailed? ==> DiagnosticOk(r.value.status.diagnostic)
      ensures r.Ok? && !r.value.status.LaunchAccepted? ==> NoActiveProcess(store.state, store.plan.steps[index].id)
      ensures r == Err(Rejected) ==> AtLimit(store.state)
      ensures r == Err(Interrupted) ==> Handed(state.processes)
    {
      hide FollowsPlan, LogFits, SpawnsFit, ProcessIndex;
      ReachedStep(state, index);
      var id := store.plan.steps[index].id;
      var process := FindProcess(state.processes, id);
      FindsMember(state.processes, id);
      KeysGrow(store.plan, instances.Keys, instances.Keys, index);
      if process.None? { return Ok(Supervised(state, ProcessMissing)); }
      var p := process.value;
      var code := if p.acceptedAt.None? then "fire-and-forget-early-exit" else "fire-and-forget-process-exited";
      var failed := LaunchFailed(ProcessDiagnostic(code, None, id));
      ghost var keys := instances.Keys;
      if p.phase == Finished {
        if p.finish.value.outcome == RunnerShutdown {
          r := Launch(state, index);
          return;
        }
        return Ok(Supervised(state, failed));
      }
      RecordsBeside(state.processes, state, id);
      var resumed :- Resume(state, p, true, true);
      KeysGrow(store.plan, keys, instances.Keys, index);
      if !resumed.status.ProcessMissing? { return Ok(resumed); }
      return Ok(Supervised(resumed.state, failed));
    }
  }

  /** Records that agree with a list but for one step are as listed, but for that step. */
  lemma RecordsBeside(listed: seq<Process>, c: RunnerCheckpoint, id: string)
    requires DistinctProcesses(listed)
    requires forall other | other != id :: FindProcess(c.processes, other) == FindProcess(listed, other)
    ensures forall k | 0 <= k < |listed| && listed[k].stepId != id :: FindProcess(c.processes, listed[k].stepId) == Some(listed[k])
    ensures c.processes == listed ==> forall k | 0 <= k < |listed| :: FindProcess(c.processes, listed[k].stepId) == Some(listed[k])
  {
    EveryMemberIsFound(listed);
  }

  lemma DistinctRecords(c: RunnerCheckpoint)
    requires Valid(c)
    ensures DistinctProcesses(c.processes)
  {}

  lemma EveryMemberIsFound(ps: seq<Process>)
    requires DistinctProcesses(ps)
    ensures forall k | 0 <= k < |ps| :: FindProcess(ps, ps[k].stepId) == Some(ps[k])
  {
    forall k | 0 <= k < |ps| ensures FindProcess(ps, ps[k].stepId) == Some(ps[k]) { MemberIsFound(ps, k); }
  }

  /** If every record of `c` is that of a listed or tracked step, all of them now inactive, all are finished. */
  lemma SweptThenStopped(listed: seq<Process>, swept: RunnerCheckpoint, c: RunnerCheckpoint, tracked: set<string>)
    requires DistinctProcesses(c.processes) && Stopped(swept, c, tracked)
    requires forall k | 0 <= k < |listed| :: listed[k].stepId in tracked || NoActiveProcess(swept, listed[k].stepId)
    requires forall id :: FindProcess(swept.processes, id).Some? ==> FindProcess(listed, id).Some? || id in tracked
    ensures AllFinished(c)
  {
    forall p | p in c.processes ensures p.phase == Finished {
      var k :| 0 <= k < |c.processes| && c.processes[k] == p;
      MemberIsFound(c.processes, k);
      assert FindProcess(swept.processes, p.stepId).Some?;
      if p.stepId !in tracked {
        assert listed[ProcessIndex(listed, p.stepId)].stepId == p.stepId;
      }
      assert NoActiveProcess(c, p.stepId);
    }
  }

  ghost predicate KeysBelow(plan: Plan, keys: set<string>, n: int) {
    && n <= |plan.steps|
    && forall id | id in keys :: exists k :: 0 <= k < n && plan.steps[k].id == id
  }

  lemma KeysGrow(plan: Plan, keys: set<string>, grown: set<string>, n: nat)
    requires KeysBelow(plan, keys, n) && n < |plan.steps|
    requires grown - {plan.steps[n].id} <= keys
    ensures KeysBelow(plan, grown, n + 1)
  {
    forall id | id in grown ensures exists k :: 0 <= k < n + 1 && plan.steps[k].id == id {
      if id == plan.steps[n].id {
        assert 0 <= n < n + 1 && plan.steps[n].id == id;
      } else {
        assert id in grown - {plan.steps[n].id};
        var k :| 0 <= k < n && plan.steps[k].id == id;
      }
    }
  }

  lemma FindsMember(ps: seq<Process>, id: string)
    ensures FindProcess(ps, id).Some? ==> FindProcess(ps, id).value in ps && FindProcess(ps, id).value.stepId == id
  {}

  lemma MemberIsFound(ps: seq<Process>, k: nat)
    requires DistinctProcesses(ps) && k < |ps|
    ensures FindProcess(ps, ps[k].stepId) == Some(ps[k])
  {}
}
