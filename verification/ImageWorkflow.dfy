/**
  The image workflow around the destructive write: the transaction under the device lock, and the
  recovery state reported for every failure, cancellation and cleanup failure.
 */
module ImageWorkflow {
  import opened Common
  import opened ImageFailure
  import opened RawImage
  import opened Customization

  /** An error raised next to the writer and verifier: it claims nothing and is no workflow error. */
  ghost predicate Plain(e: Failure) {
    && ClaimsNothing(e)
    && (e.GuardrailError? || e == OtherError(None) || e == WriteFailure(LockContention) || e == WriteFailure(LockFailed)
        || e == WriteFailure(UnmountFailed) || e == WriteFailure(WriteCanceled) || e == WriteFailure(SourceSizeMismatch)
        || e == WriteFailure(TargetTooSmall) || e == WriteFailure(InvalidByteCount))
  }

  /** An error claims no more than what has happened. */
  ghost predicate Honest(e: Failure, exact: bool, checked: bool) {
    (CarriesVerified(e) ==> exact) && (CarriesChecked(e) ==> checked)
  }

  lemma PlainErrors(confirmationRejected: bool)
    ensures Plain(GuardrailError(confirmationRejected)) && Plain(OtherError(None))
    ensures Plain(WriteFailure(LockContention)) && Plain(WriteFailure(LockFailed)) && Plain(WriteFailure(UnmountFailed))
    ensures Plain(WriteFailure(TargetTooSmall)) && Plain(WriteFailure(InvalidByteCount)) && Plain(WriteFailure(SourceSizeMismatch))
    ensures Plain(WriteFailure(WriteCanceled))
    ensures FromImaging(WriteFailure(SourceSizeMismatch)) && FromImaging(WriteFailure(WriteCanceled))
  {
    ClaimsNothingWrapped(GuardrailError(confirmationRejected));
    RaisedClaimsNothing(OtherError(None));
    ClaimsNothingWrapped(WriteFailure(LockContention));
    ClaimsNothingWrapped(WriteFailure(LockFailed));
    ClaimsNothingWrapped(WriteFailure(UnmountFailed));
    ClaimsNothingWrapped(WriteFailure(TargetTooSmall));
    WriteFailureIsImaging(InvalidByteCount, None);
    WriteFailureIsImaging(SourceSizeMismatch, None);
    WriteFailureIsImaging(WriteCanceled, None);
  }

  /** Cancellation and a wrong byte count are put down to the write, a failed recheck to the active read-back. */
  lemma PhasesAfterWriting(current: Phase, e: Failure)
    ensures PhaseForFailure(WriteFailure(WriteCanceled), current) == Write
    ensures PhaseForFailure(WriteFailure(SourceSizeMismatch), current) == Write
    ensures Plain(e) ==> ClaimsNothing(e) && !e.WorkflowError?
    ensures Plain(e) && !e.WriteError? ==> PhaseForFailure(e, Verify) == Verify
    ensures FromImaging(e) ==> ClaimsNothing(e) && !e.WorkflowError?
  {}

  function TransactionCleanup(operation: Option<Failure>, errors: seq<Failure>, verified: bool): Failure {
    WriteError(WriteCleanupFailed, operation.None?, verified,
      Some(Aggregate((if operation.Some? then [operation.value] else []) + errors)))
  }

  /** Wrapping in a cleanup failure keeps the phase and claims nothing false. */
  lemma CleanupWraps(operation: Option<Failure>, errors: seq<Failure>, exact: bool, checked: bool, current: Phase)
    requires operation.Some? ==> Honest(operation.value, exact, checked) && !operation.value.WorkflowError?
    requires forall e | e in errors :: ClaimsNothing(e)
    ensures Honest(TransactionCleanup(operation, errors, exact), exact, checked)
    ensures operation.Some? ==>
              PhaseForFailure(TransactionCleanup(operation, errors, exact), current) == PhaseForFailure(operation.value, current)
  {
    var e := TransactionCleanup(operation, errors, exact);
    var a := e.cause.value;
    forall n | Within(e, n)
      ensures (n.WriteError? && n.verified ==> exact) && (n.CustomizationError? && n.checked ==> checked)
    {
      if n != e {
        assert Within(a, n) by { assert Carried(e) == [a]; }
        if n != a {
          var c :| c in Carried(a) && Within(c, n);
          assert c in errors ==> ClaimsNothing(c);
        }
      }
    }
  }

  function Depth(mountpoint: string): nat {
    if mountpoint == "" then 0 else (if mountpoint[0] == '/' then 1 else 0) + Depth(mountpoint[1..])
  }

  predicate Deeper(a: string, b: string) { Depth(a) > Depth(b) || (Depth(a) == Depth(b) && |a| > |b|) }

  /** The mountpoint to unmount first: none lies deeper. */
  method DeepestMount(mountpoints: seq<string>) returns (m: string)
    requires mountpoints != []
    ensures m in mountpoints && forall n | n in mountpoints :: !Deeper(n, m)
  {
    m := mountpoints[0];
    for k := 1 to |mountpoints|
      invariant m in mountpoints && forall j | 0 <= j < k :: !Deeper(mountpoints[j], m)
    {
      if Deeper(mountpoints[k], m) { m := mountpoints[k]; }
    }
  }

  class Workflow {
    const target: array<byte>
    const image: seq<byte>
    /** Mountpoints that can turn up below the target. */
    const mountable: set<string>
    const progress: Progress
    var recovery: Recovery
    /** The writer has been called. */
    ghost var touched: bool
    /** Read-back has found the target to begin with exactly the image. */
    ghost var exact: bool
    /** Customization has passed every filesystem check. */
    ghost var checked: bool

    constructor (target: array<byte>, image: seq<byte>, mountable: set<string>)
      ensures this.target == target && this.image == image && this.mountable == mountable && fresh(progress)
      ensures recovery == TargetUnchanged && !touched && !exact && !checked
    {
      this.target, this.image, this.mountable := target, image, mountable;
      progress := new Progress(Validation);
      recovery, touched, exact, checked := TargetUnchanged, false, false, false;
    }

    /** The recovery state is never ahead of what has happened. */
    ghost predicate Sound()
      reads this
    {
      && (recovery == Complete ==> checked && exact) && (recovery == TargetVerified ==> exact)
      && recovery != TargetIncomplete && (checked ==> exact)
    }

    method AnyPlain() returns (e: Failure)
      ensures Plain(e) && !e.WriteError?
    {
      var rejected := Happens();
      PlainErrors(rejected);
      var guardrail := Happens();
      e := if guardrail then GuardrailError(rejected) else OtherError(None);
    }

    /** Rechecks the target and gives the mountpoints still below it. */
    method RecheckTarget() returns (r: Result<seq<string>, Failure>)
      ensures r.Ok? ==> forall m | m in r.value :: m in mountable
      ensures r.Err? ==> Plain(r.error) && !r.error.WriteError?
    {
      var accepted := Happens();
      var mountpoints: seq<string> := *;
      if !accepted || exists m | m in mountpoints :: m !in mountable {
        var e := AnyPlain();
        return Err(e);
      }
      return Ok(mountpoints);
    }

    /** Unmounts the deepest descendant until a recheck shows none; no mountpoint is tried twice. */
    method UnmountDescendants(reports: bool) returns (r: Result<(), Failure>)
      modifies progress
      ensures r.Err? ==> Plain(r.error)
      ensures progress.active == old(progress.active) || (reports && progress.active == Recheck)
    {
      PlainErrors(false);
      var attempted: set<string> := {};
      while true
        invariant attempted <= mountable
        invariant progress.active == old(progress.active) || (reports && progress.active == Recheck)
        decreases mountable - attempted
      {
        if reports { var _ :- ThrowIfCanceled(); }
        var mountpoints :- RecheckTarget();
        if reports { var _ :- ThrowIfCanceled(); }
        if mountpoints == [] { return Ok(()); }
        var m := DeepestMount(mountpoints);
        if m in attempted { return Err(WriteFailure(UnmountFailed)); }
        attempted := attempted + {m};
        var unmounted := Happens();
        if !unmounted {
          var canceled := Happens();
          return Err(WriteFailure(if canceled then WriteCanceled else UnmountFailed));
        }
        if reports { progress.active := Recheck; }
      }
    }

    method Acquire() returns (r: Result<(), Failure>)
      ensures r.Err? ==> Plain(r.error)
    {
      PlainErrors(false);
      var _ :- ThrowIfCanceled();
      var code: WriteCode := *;
      if code == LockContention || code == LockFailed || code == WriteCanceled { return Err(WriteFailure(code)); }
      return Ok(());
    }

    /** The callback after read-back: the target is verified, and then customized. */
    method AfterVerify() returns (r: Result<(), Failure>)
      requires exact && recovery == TargetUnchanged
      modifies this`recovery, this`checked, progress, target
      ensures Sound() && (if r.Ok? then recovery == Complete else recovery == TargetVerified)
      ensures r.Err? ==> r.error.CustomizationError? && Honest(r.error, exact, checked)
    {
      recovery := TargetVerified;
      progress.active := Customize;
      var customizer := new Customizer(target);
      var customized, done := customizer.CustomizeWrittenImage();
      checked := done;
      if customized.Err? { return Err(customized.error); }
      recovery := Complete;
      return Ok(());
    }

    /** Write, read back, recheck. Without success the failure is put down to the write or read-back. */
    method WriteAndVerify(written: Chunks, readBack: Chunks, expected: int) returns (r: Result<nat, Failure>)
      requires Flatten(written) == image && Flatten(readBack) == image
      requires recovery == TargetUnchanged
      modifies this`touched, this`exact, progress, target
      ensures r.Ok? ==> exact && r.value == expected == |image| <= target.Length && target[..expected] == image
      ensures touched && (r.Err? ==> !r.error.WorkflowError? && ClaimsNothing(r.error) && exact == old(exact))
      ensures r.Err? ==> PhaseForFailure(r.error, progress.active) == Write || PhaseForFailure(r.error, progress.active) == Verify
      ensures exact ==> old(exact) || (|image| <= target.Length && target[..|image|] == image)
      ensures forall i | 0 <= i < target.Length && expected <= i :: target[i] == old(target[i])
    {
      hide FromImaging, ClaimsNothing, PhaseForFailure, Plain;
      PlainErrors(false);
      PhasesAfterWriting(Write, WriteFailure(SourceSizeMismatch));
      PhasesAfterWriting(Verify, WriteFailure(SourceSizeMismatch));
      touched := true;
      var wrote := WriteImage(target, written, expected, progress);
      if wrote.Err? {
        ImagingPhase(wrote.error, progress.active);
        PhasesAfterWriting(Write, wrote.error);
        return Err(wrote.error);
      }
      var checkpoint := ThrowIfCanceled();
      if checkpoint.Err? { return Err(checkpoint.error); }
      // the medium may not hold what was written to it
      Garble(target, 0, expected);
      var verified := VerifyImage(target, readBack, expected, progress);
      if verified.Err? {
        ImagingPhase(verified.error, progress.active);
        PhasesAfterWriting(Verify, verified.error);
        return Err(verified.error);
      }
      checkpoint := ThrowIfCanceled();
      if checkpoint.Err? { return Err(checkpoint.error); }
      if wrote.value != expected || verified.value != expected { return Err(WriteFailure(SourceSizeMismatch)); }
      var recheck := RecheckTarget();
      if recheck.Err? {
        PhasesAfterWriting(Verify, recheck.error);
        return Err(recheck.error);
      }
      checkpoint := ThrowIfCanceled();
      if checkpoint.Err? { return Err(checkpoint.error); }
      exact := true;
      return Ok(verified.value);
    }

    /** The state in which a failed transaction leaves the workflow. */
    ghost predicate Accounted(e: Failure)
      reads this, progress
    {
      && !e.WorkflowError? && Honest(e, exact, checked)
      && (touched && recovery == TargetUnchanged ==>
            PhaseForFailure(e, progress.active) == Write || PhaseForFailure(e, progress.active) == Verify)
    }

    /** The operation under the device lock. */
    method Operate(written: Chunks, readBack: Chunks, expected: int) returns (r: Result<nat, Failure>)
      requires Flatten(written) == image && Flatten(readBack) == image
      requires recovery == TargetUnchanged && !touched && !exact && !checked
      modifies this`touched, this`exact, this`recovery, this`checked, progress, target
      ensures Sound() && (r.Ok? ==> recovery == Complete && r.value == expected == |image|)
      ensures r.Err? ==> Accounted(r.error)
      ensures exact <==> recovery != TargetUnchanged
      ensures !touched ==> target[..] == old(target[..])
    {
      PlainErrors(false);
      var _ :- UnmountDescendants(true);
      var _ :- ThrowIfCanceled();
      var verified :- WriteAndVerify(written, readBack, expected);
      var _ :- AfterVerify();
      var late := ThrowIfCanceled();
      if late.Err? { return Err(late.error); }
      return Ok(verified);
    }

    /** The write transaction with its cleanup. */
    method WriteImageTransaction(written: Chunks, readBack: Chunks, expected: int, sizeBytes: int) returns (r: Result<nat, Failure>)
      requires Flatten(written) == image && Flatten(readBack) == image
      requires recovery == TargetUnchanged && !touched && !exact && !checked
      modifies this`touched, this`exact, this`recovery, this`checked, progress, target
      ensures Sound() && (r.Ok? ==> recovery == Complete && r.value == expected == |image|)
      ensures r.Err? ==> Accounted(r.error)
      ensures !touched ==> target[..] == old(target[..])
    {
      PlainErrors(false);
      var confirmed := Happens();
      if !confirmed { return Err(OtherError(None)); }
      if !ValidLength(expected) { return Err(WriteFailure(InvalidByteCount)); }
      if expected > sizeBytes { return Err(WriteFailure(TargetTooSmall)); }
      var acquired := Acquire();
      if acquired.Err? { return Err(acquired.error); }
      var operated: Result<nat, Failure>;
      var early := ThrowIfCanceled();
      if early.Ok? { operated := Operate(written, readBack, expected); } else { operated := Err(early.error); }
      var errors := CleanUp(operated);
      if errors != [] {
        var operation := if operated.Err? then Some(operated.error) else None;
        // the read-back has been passed once customization has begun
        CleanupWraps(operation, errors, exact, checked, progress.active);
        return Err(TransactionCleanup(operation, errors, recovery != TargetUnchanged));
      }
      r := operated;
    }

    /** Unmounts what customization may have left and releases the lock. */
    method CleanUp(operated: Result<nat, Failure>) returns (errors: seq<Failure>)
      modifies progress
      ensures progress.active == old(progress.active)
      ensures forall e | e in errors :: ClaimsNothing(e)
    {
      PlainErrors(false);
      errors := [];
      var unmounted := UnmountDescendants(false);
      if unmounted.Err? && !(operated.Err? && operated.error.GuardrailError? && unmounted.error.GuardrailError?) {
        errors := errors + [unmounted.error];
      }
      var released := Happens();
      if !released { errors := errors + [OtherError(None)]; }
    }

    /** A step before the destructive write: its error claims nothing. */
    method Prepare(phase: Phase) returns (r: Result<(), Failure>)
      requires !IsDestructive(phase)
      modifies progress
      ensures progress.active == phase
      ensures r.Err? ==> Plain(r.error) && !r.error.WriteError?
    {
      PlainErrors(false);
      progress.active := phase;
      var worked := Happens();
      if !worked {
        var e := AnyPlain();
        return Err(e);
      }
      var canceled := Happens();
      if canceled { return Err(OtherError(None)); }
      return Ok(());
    }

    method Preliminaries() returns (r: Result<(), Failure>)
      modifies progress
      ensures !IsDestructive(progress.active)
      ensures r.Err? ==> Plain(r.error) && !r.error.WriteError?
    {
      var _ :- Prepare(Validation);
      var _ :- Prepare(OsResolution);
      var _ :- Prepare(Validation);
      var _ :- Prepare(Synthesis);
      return Ok(());
    }

    method PrepareWrite() returns (r: Result<(), Failure>)
      modifies progress
      ensures r.Err? ==> Plain(r.error) && !r.error.WriteError? && !IsDestructive(progress.active)
    {
      var _ :- Prepare(Validation);
      var _ :- Prepare(ArtifactAcquisition);
      var _ :- Prepare(Preparation);
      var _ :- Prepare(Preflight);
      var _ :- Prepare(Confirmation);
      progress.active := Lock;
      return Ok(());
    }

    /** Everything up to the report. `began` says that the write transaction was started. */
    method Attempt(dryRun: bool, written: Chunks, readBack: Chunks, expected: int, sizeBytes: int)
      returns (r: Result<(), Failure>, began: bool)
      requires Flatten(written) == image && Flatten(readBack) == image
      requires recovery == TargetUnchanged && !touched && !exact && !checked
      modifies this`touched, this`exact, this`recovery, this`checked, progress, target
      ensures Sound() && (r.Ok? ==> if dryRun then recovery == TargetUnchanged else recovery == Complete)
      ensures r.Err? ==> !r.error.WorkflowError? && Honest(r.error, exact, checked)
      ensures r.Err? && touched && recovery == TargetUnchanged ==>
                PhaseForFailure(r.error, progress.active) == Write || PhaseForFailure(r.error, progress.active) == Verify
      ensures !touched ==> target[..] == old(target[..])
      ensures (!began ==> !touched && recovery == TargetUnchanged) && (dryRun ==> !began)
      ensures r.Err? && !began ==> Plain(r.error) && !r.error.WriteError? && !IsDestructive(progress.active)
    {
      began := false;
      var _ :- Preliminaries();
      if dryRun { return Ok(()), began; }
      var _ :- PrepareWrite();
      began := true;
      var _ :- WriteImageTransaction(written, readBack, expected, sizeBytes);
      var canceled := Happens();
      if canceled {
        PlainErrors(false);
        return Err(OtherError(None)), began;
      }
      return Ok(()), began;
    }

    /**
      The report. A target that may have changed is never reported unchanged, "complete" is
      reported only after every filesystem check has passed, and "verified" only after an exact
      read-back.
     */
    method RunImageWorkflow(dryRun: bool, written: Chunks, readBack: Chunks, expected: int, sizeBytes: int)
      returns (r: Result<(), Failure>, began: bool)
      requires Flatten(written) == image && Flatten(readBack) == image
      requires recovery == TargetUnchanged && !touched && !exact && !checked
      modifies this`touched, this`exact, this`recovery, this`checked, progress, target
      ensures r.Err? ==> r.error.WorkflowError?
      ensures r.Err? && r.error.recovery == TargetUnchanged ==> !touched && target[..] == old(target[..])
      ensures r.Err? && r.error.recovery == TargetVerified ==> exact
      ensures r.Err? && r.error.recovery == Complete ==> exact && checked
      ensures r.Ok? ==> if dryRun then !touched else exact && checked
      ensures !began ==> target[..] == old(target[..]) && (r.Err? ==> r.error.recovery == TargetUnchanged)
    {
      var attempted;
      attempted, began := Attempt(dryRun, written, readBack, expected, sizeBytes);
      var operation: Option<Failure> := None;
      if attempted.Err? {
        var e := attempted.error;
        var phase := PhaseForFailure(e, progress.active);
        var completed := CompletedRecoveryFor(e);
        var last := LatestRecovery(recovery, completed);
        var failed := if last == TargetUnchanged && (phase == Write || phase == Verify) then TargetIncomplete else last;
        var cleanupFailed := CleanupFailedFor(e);
        var canceled := Happens();
        operation := Some(WorkflowError(phase, failed, canceled, cleanupFailed, Some(e)));
      }
      var removed := Happens();
      if !removed {
        return Err(WorkflowError(
          if operation.Some? then operation.value.phase else Cleanup,
          if operation.Some? then operation.value.recovery else recovery,
          operation.Some? && operation.value.canceled, true,
          Some(Aggregate((if operation.Some? then [operation.value] else []) + [OtherError(None)])))), began;
      }
      if operation.Some? { return Err(operation.value), began; }
      return Ok(()), began;
    }
  }
}
