/**
  The errors of the image workflow and what is read off them: the phase that failed, and how far
  the target is known to have got.
 */
module ImageFailure {
  import opened Common

  datatype Phase =
    | ArtifactAcquisition | Check | Cleanup | Confirmation | Customize | Lock | OsResolution | Preflight
    | Preparation | Recheck | Synthesis | Validation | Verify | Write

  datatype Recovery = Complete | TargetIncomplete | TargetUnchanged | TargetVerified

  datatype WriteCode =
    | WriteCanceled | WriteCleanupFailed | InvalidByteCount | LockContention | LockFailed | ReadBackMismatch
    | ShortRead | ShortWrite | SourceFailed | SourceSizeMismatch | TargetAccess | TargetTooSmall | UnmountFailed
    | WriteSyncFailed

  datatype CustomizationCode =
    | AdapterFailed | CustomizationCanceled | CapacityInsufficient | CapacityProvisionFailed
    | CustomizationCleanupFailed | FilesystemCheckFailed | InvalidInput | MountFailed | PartitionLayout
    | PartitionTimeout | PostconditionFailed | TemporaryRootFailed

  /** A thrown error with the errors it carries. */
  datatype Failure =
    | WorkflowError(phase: Phase, recovery: Recovery, canceled: bool, cleanupFailed: bool, cause: Option<Failure>)
    | WriteError(code: WriteCode, cleanupOnly: bool, verified: bool, cause: Option<Failure>)
    | CustomizationError(problem: CustomizationCode, cleanupOnly: bool, checked: bool, cause: Option<Failure>)
    | GuardrailError(confirmationRejected: bool)
    | Aggregate(errors: seq<Failure>)
    | OtherError(cause: Option<Failure>)

  function WriteFailure(code: WriteCode): Failure { WriteError(code, false, false, None) }

  function CustomizationFailure(code: CustomizationCode): Failure { CustomizationError(code, false, false, None) }

  predicate IsDestructive(p: Phase) { p == Lock || p == Recheck || p == Write || p == Verify }

  predicate IsCleanupError(e: Failure) {
    (e.WriteError? && e.code == WriteCleanupFailed) || (e.CustomizationError? && e.problem == CustomizationCleanupFailed)
  }

  /** The error that a cleanup failure came on top of, if there was one. */
  function PrimaryCause(e: Failure): Option<Failure> {
    if !IsCleanupError(e) then Some(e)
    else if e.cleanupOnly then None
    else if e.cause.None? || !e.cause.value.Aggregate? then Some(e)
    else if e.cause.value.errors == [] then None
    else PrimaryCause(e.cause.value.errors[0])
  }

  function WriteFailurePhase(primary: Failure, current: Phase): Phase {
    if !primary.WriteError? then current
    else if primary.code == LockContention || primary.code == LockFailed then Lock
    else if primary.code == UnmountFailed then Recheck
    else if primary.code == ReadBackMismatch || primary.code == ShortRead then Verify
    else Write
  }

  function CustomizationFailurePhase(primary: Failure): Phase {
    if primary.CustomizationError? && primary.problem == FilesystemCheckFailed then Check else Customize
  }

  function PhaseForFailure(e: Failure, current: Phase): Phase {
    if e.WorkflowError? then e.phase
    else
      var p := PrimaryCause(e);
      if p.None? then Cleanup
      else if p.value.WorkflowError? then p.value.phase
      else if p.value.WriteError? || IsDestructive(current) then WriteFailurePhase(p.value, current)
      else if p.value.CustomizationError? || current == Customize || current == Check then CustomizationFailurePhase(p.value)
      else if p.value.GuardrailError? && p.value.confirmationRejected then Confirmation
      else current
  }

  /** The errors that an error carries directly. */
  function Carried(e: Failure): (c: seq<Failure>)
    ensures forall d | d in c :: d < e
  {
    match e
    case Aggregate(errors) => errors
    case GuardrailError(_) => []
    case _ => if e.cause.Some? then [e.cause.value] else []
  }

  /** `n` is the error or carried by it at some depth. */
  ghost predicate Within(e: Failure, n: Failure)
    decreases e
  {
    e == n || exists c | c in Carried(e) :: Within(c, n)
  }

  lemma {:induction false} WithinCarried(e: Failure, n: Failure, d: Failure)
    requires Within(e, n) && d in Carried(n)
    ensures Within(e, d)
    decreases e
  {
    if e != n {
      var c :| c in Carried(e) && Within(c, n);
      WithinCarried(c, n, d);
    } else {
      assert Within(d, d);
    }
  }

  function Size(e: Failure): (s: nat) {
    match e
    case Aggregate(errors) => 1 + TotalSize(errors)
    case GuardrailError(_) => 1
    case _ => if e.cause.Some? then 1 + Size(e.cause.value) else 1
  }

  function TotalSize(es: seq<Failure>): nat {
    if es == [] then 0 else Size(es[0]) + TotalSize(es[1..])
  }

  lemma {:induction false} TotalSizeConcat(a: seq<Failure>, b: seq<Failure>)
    ensures TotalSize(a + b) == TotalSize(a) + TotalSize(b)
  {
    if a == [] {
      assert a + b == b;
    } else {
      assert (a + b)[1..] == a[1..] + b;
      TotalSizeConcat(a[1..], b);
    }
  }

  lemma SizeIsCarried(e: Failure)
    ensures Size(e) == 1 + TotalSize(Carried(e))
  {
    match e
    case Aggregate(_) =>
    case GuardrailError(_) =>
    case _ => if e.cause.Some? { assert Carried(e)[1..] == []; }
  }

  // ---- The worklist searches ----

  /** Everything carried has been seen or is pending. */
  ghost predicate Searching(e: Failure, seen: set<Failure>, pending: seq<Failure>) {
    && (forall n | n in seen :: Within(e, n))
    && (forall n | n in pending :: Within(e, n))
    && (e in seen || e in pending)
    && (forall n, c | n in seen && c in Carried(n) :: c in seen || c in pending)
  }

  lemma PendingShrinks(pending: seq<Failure>)
    requires pending != []
    ensures var current, rest := pending[|pending| - 1], pending[..|pending| - 1];
            TotalSize(rest) <= TotalSize(rest + Carried(current)) < TotalSize(pending)
  {
    var current, rest := pending[|pending| - 1], pending[..|pending| - 1];
    assert pending == rest + [current];
    TotalSizeConcat(rest, [current]);
    TotalSizeConcat(rest, Carried(current));
    SizeIsCarried(current);
    assert [current][1..] == [];
  }

  lemma SkipStep(e: Failure, seen: set<Failure>, rest: seq<Failure>, current: Failure)
    requires Searching(e, seen, rest + [current]) && current in seen
    ensures Searching(e, seen, rest)
  {
    assert forall n | n in rest :: n in rest + [current];
    assert forall n | n in rest + [current] :: n in rest || n == current;
  }

  lemma VisitStep(e: Failure, seen: set<Failure>, rest: seq<Failure>, current: Failure)
    requires Searching(e, seen, rest + [current])
    ensures Searching(e, seen + {current}, rest + Carried(current))
  {
    assert current in rest + [current];
    forall c | c in Carried(current) ensures Within(e, c) { WithinCarried(e, current, c); }
    assert forall n | n in rest :: n in rest + [current];
    assert forall n | n in rest + [current] :: n in rest || n == current;
    assert forall n | n in rest || n in Carried(current) :: n in rest + Carried(current);
  }

  lemma SearchStep(e: Failure, seen: set<Failure>, pending: seq<Failure>)
    requires Searching(e, seen, pending) && pending != []
    ensures var current, rest := pending[|pending| - 1], pending[..|pending| - 1];
            if current in seen then Searching(e, seen, rest) && TotalSize(rest) < TotalSize(pending)
            else Searching(e, seen + {current}, rest + Carried(current)) && TotalSize(rest + Carried(current)) < TotalSize(pending)
  {
    hide Searching;
    var current, rest := pending[|pending| - 1], pending[..|pending| - 1];
    assert pending == rest + [current];
    PendingShrinks(pending);
    if current in seen { SkipStep(e, seen, rest, current); } else { VisitStep(e, seen, rest, current); }
  }

  lemma {:induction false} SearchReaches(seen: set<Failure>, e: Failure, n: Failure)
    requires e in seen && Within(e, n)
    requires forall m, c | m in seen && c in Carried(m) :: c in seen
    ensures n in seen
    decreases e
  {
    if e != n {
      var c :| c in Carried(e) && Within(c, n);
      SearchReaches(seen, c, n);
    }
  }

  ghost predicate CarriesChecked(e: Failure) { exists n :: Within(e, n) && n.CustomizationError? && n.checked }

  ghost predicate CarriesVerified(e: Failure) { exists n :: Within(e, n) && n.WriteError? && n.verified }

  ghost predicate CarriesCleanup(e: Failure) {
    exists n :: Within(e, n) && (IsCleanupError(n) || (n.WorkflowError? && n.cleanupFailed))
  }

  /** The furthest completion that any carried error vouches for. */
  method CompletedRecoveryFor(e: Failure) returns (r: Option<Recovery>)
    ensures r == if CarriesChecked(e) then Some(Complete) else if CarriesVerified(e) then Some(TargetVerified) else None
  {
    var verified := false;
    var pending, seen := [e], {};
    assert Within(e, e);
    while pending != []
      invariant Searching(e, seen, pending)
      invariant forall n | n in seen :: !(n.CustomizationError? && n.checked)
      invariant verified <==> exists n :: n in seen && n.WriteError? && n.verified
      decreases TotalSize(pending)
    {
      var current := pending[|pending| - 1];
      SearchStep(e, seen, pending);
      pending := pending[..|pending| - 1];
      if current !in seen {
        seen := seen + {current};
        if current.CustomizationError? && current.checked { return Some(Complete); }
        if current.WriteError? && current.verified { verified := true; }
        pending := pending + Carried(current);
      }
    }
    forall n | Within(e, n) ensures n in seen { SearchReaches(seen, e, n); }
    return if verified then Some(TargetVerified) else None;
  }

  method CleanupFailedFor(e: Failure) returns (failed: bool)
    ensures failed <==> CarriesCleanup(e)
  {
    var pending, seen := [e], {};
    assert Within(e, e);
    while pending != []
      invariant Searching(e, seen, pending)
      invariant forall n | n in seen :: !IsCleanupError(n) && !(n.WorkflowError? && n.cleanupFailed)
      decreases TotalSize(pending)
    {
      var current := pending[|pending| - 1];
      SearchStep(e, seen, pending);
      pending := pending[..|pending| - 1];
      if current !in seen {
        seen := seen + {current};
        if current.WorkflowError? && current.cleanupFailed { return true; }
        if IsCleanupError(current) { return true; }
        pending := pending + Carried(current);
      }
    }
    forall n | Within(e, n) ensures n in seen { SearchReaches(seen, e, n); }
    return false;
  }

  function LatestRecovery(current: Recovery, completed: Option<Recovery>): Recovery {
    if completed == Some(Complete) || current == Complete then Complete
    else if completed.Some? then completed.value else current
  }

  // ---- Errors of the write and read-back ----

  /** Nothing carried claims completion. */
  ghost predicate ClaimsNothing(e: Failure) { !CarriesChecked(e) && !CarriesVerified(e) }

  /** An error of the repository's writer or verifier. */
  ghost predicate FromImaging(e: Failure) {
    && e.WriteError? && ClaimsNothing(e) && !e.cleanupOnly
    && e.code != LockContention && e.code != LockFailed && e.code != UnmountFailed
    && (e.code == WriteCleanupFailed && e.cause.Some? && e.cause.value.Aggregate? ==>
          e.cause.value.errors != [] && FromImaging(e.cause.value.errors[0]))
  }

  /** Such an error is put down to writing or read-back, whatever the active phase. */
  lemma {:induction false} ImagingPhase(e: Failure, current: Phase)
    requires FromImaging(e)
    ensures PhaseForFailure(e, current) == Write || PhaseForFailure(e, current) == Verify
  {
    if e.code == WriteCleanupFailed && e.cause.Some? && e.cause.value.Aggregate? {
      ImagingPhase(e.cause.value.errors[0], current);
    }
  }

  lemma ClaimsNothingWrapped(e: Failure)
    requires forall c | c in Carried(e) :: ClaimsNothing(c)
    requires !(e.CustomizationError? && e.checked) && !(e.WriteError? && e.verified)
    ensures ClaimsNothing(e)
  {
    forall n | Within(e, n) ensures !(n.CustomizationError? && n.checked) && !(n.WriteError? && n.verified) {
      if n != e {
        var c :| c in Carried(e) && Within(c, n);
        assert ClaimsNothing(c);
      }
    }
  }
}
