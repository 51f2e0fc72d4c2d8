/**
  Writing an image to its target and reading it back, under any chunking, short reads and writes,
  failing calls and cancellation.
 */
module RawImage {
  import opened Common
  import opened ImageFailure

  type byte = bv8

  type Chunks = seq<seq<byte>>

  const MAX_SAFE: int := 0x1F_FFFF_FFFF_FFFF

  /** What the progress callback updates. */
  class Progress {
    var active: Phase

    constructor (active: Phase)
      ensures this.active == active
    {
      this.active := active;
    }
  }

  function Flatten(chunks: Chunks): seq<byte> {
    if chunks == [] then [] else chunks[0] + Flatten(chunks[1..])
  }

  lemma {:induction false} FlattenSnoc(chunks: Chunks, c: seq<byte>)
    ensures Flatten(chunks + [c]) == Flatten(chunks) + c
  {
    if chunks == [] {
      assert Flatten([c]) == c + Flatten([c][1..]) && [c][1..] == [];
    } else {
      assert (chunks + [c])[1..] == chunks[1..] + [c];
      FlattenSnoc(chunks[1..], c);
    }
  }

  lemma {:induction false} FlattenPrefix(chunks: Chunks, k: nat)
    requires k <= |chunks|
    ensures Flatten(chunks[..k]) <= Flatten(chunks)
    decreases |chunks| - k
  {
    if k == |chunks| {
      assert chunks[..k] == chunks;
    } else {
      FlattenPrefix(chunks, k + 1);
      assert chunks[..k + 1] == chunks[..k] + [chunks[k]];
      FlattenSnoc(chunks[..k], chunks[k]);
    }
  }

  lemma NextChunk(chunks: Chunks, k: nat)
    requires k < |chunks|
    ensures Flatten(chunks[..k + 1]) == Flatten(chunks[..k]) + chunks[k] && Flatten(chunks[..k + 1]) <= Flatten(chunks)
  {
    hide Flatten;
    assert chunks[..k + 1] == chunks[..k] + [chunks[k]];
    FlattenSnoc(chunks[..k], chunks[k]);
    FlattenPrefix(chunks, k + 1);
  }

  lemma AllChunks(chunks: Chunks)
    ensures Flatten(chunks[..0]) == [] && chunks[..|chunks|] == chunks
  {}

  /** One chunk that differs makes the whole differ. */
  lemma ChunkDiffers(bytes: seq<byte>, chunks: Chunks, k: nat)
    requires k < |chunks|
    requires var from := |Flatten(chunks[..k])|; from + |chunks[k]| <= |bytes| && bytes[from..from + |chunks[k]|] != chunks[k]
    ensures !(Flatten(chunks) <= bytes)
  {
    var from := |Flatten(chunks[..k])|;
    NextChunk(chunks, k);
    var through := Flatten(chunks[..k + 1]);
    assert through[from..] == chunks[k] && |through| <= |bytes|;
  }

  /** An error raised while the stream is being consumed: the module's own, or one of the system's. */
  ghost predicate Raised(e: Failure) { e == OtherError(None) || FromImaging(e) }

  predicate IsImagingCode(code: WriteCode) { code != LockContention && code != LockFailed && code != UnmountFailed }

  lemma WriteFailureIsImaging(code: WriteCode, cause: Option<Failure>)
    requires IsImagingCode(code) && code != WriteCleanupFailed
    requires cause.Some? ==> ClaimsNothing(cause.value)
    ensures FromImaging(WriteError(code, false, false, cause))
  {
    ClaimsNothingWrapped(WriteError(code, false, false, cause));
  }

  lemma RaisedClaimsNothing(e: Failure)
    requires Raised(e)
    ensures ClaimsNothing(e)
  {
    if e == OtherError(None) { ClaimsNothingWrapped(e); }
  }

  function CleanupFailure(operation: Failure, cleanup: Failure): Failure {
    WriteError(WriteCleanupFailed, false, false, Some(Aggregate([operation, cleanup])))
  }

  lemma CleanupFailureIsImaging(operation: Failure)
    requires FromImaging(operation)
    ensures FromImaging(CleanupFailure(operation, OtherError(None)))
  {
    RaisedClaimsNothing(OtherError(None));
    ClaimsNothingWrapped(Aggregate([operation, OtherError(None)]));
    ClaimsNothingWrapped(CleanupFailure(operation, OtherError(None)));
  }

  method Happens() returns (b: bool) {
    b := *;
  }

  method ThrowIfCanceled() returns (r: Result<(), Failure>)
    ensures r.Err? ==> FromImaging(r.error) && r.error == WriteFailure(WriteCanceled)
  {
    var aborted := Happens();
    if aborted {
      WriteFailureIsImaging(WriteCanceled, None);
      return Err(WriteFailure(WriteCanceled));
    }
    return Ok(());
  }

  function AsSourceFailure(e: Failure, aborted: bool): Failure {
    if aborted then WriteError(WriteCanceled, false, false, Some(e))
    else if e.WriteError? then e
    else WriteError(SourceFailed, false, false, Some(e))
  }

  lemma SourceFailureIsImaging(e: Failure, aborted: bool)
    requires Raised(e)
    ensures FromImaging(AsSourceFailure(e, aborted))
  {
    RaisedClaimsNothing(e);
    WriteFailureIsImaging(WriteCanceled, Some(e));
    WriteFailureIsImaging(SourceFailed, Some(e));
  }

  predicate ValidLength(length: int) { 0 < length <= MAX_SAFE }

  // ---- The target ----

  /** Leaves anything in part of the target. */
  method Garble(target: array<byte>, from: nat, to: nat)
    modifies target
    ensures forall i | 0 <= i < target.Length && !(from <= i < to) :: target[i] == old(target[i])
  {
    var i := from;
    while i < to && i < target.Length
      invariant from <= i
      invariant forall k | 0 <= k < target.Length && !(from <= k < to) :: target[k] == old(target[k])
    {
      target[i] := *;
      i := i + 1;
    }
  }

  /** One write call: some of the bytes arrive, or it fails and anything may be in their place. */
  method WriteSome(target: array<byte>, bytes: seq<byte>, position: nat) returns (r: Result<int, Failure>)
    requires bytes != []
    modifies target
    ensures r.Ok? ==> r.value <= |bytes| && (r.value > 0 ==> position + r.value <= target.Length)
    ensures r.Ok? ==> forall i | 0 <= i < target.Length ::
              target[i] == if position <= i < position + r.value then bytes[i - position] else old(target[i])
    ensures r.Err? ==> r.error == OtherError(None)
    ensures forall i | 0 <= i < target.Length && !(position <= i < position + |bytes|) :: target[i] == old(target[i])
  {
    var fails := Happens();
    if fails {
      Garble(target, position, position + |bytes|);
      return Err(OtherError(None));
    }
    var count: int := *;
    if count > |bytes| || (count > 0 && position + count > target.Length) { count := 0; }
    var k := 0;
    while k < count
      invariant 0 <= k <= if count > 0 then count else 0
      invariant forall i | 0 <= i < target.Length ::
                  target[i] == if position <= i < position + k then bytes[i - position] else old(target[i])
    {
      target[position + k] := bytes[k];
      k := k + 1;
    }
    return Ok(count);
  }

  /** One read call: some of the bytes from a position of the target. */
  method ReadSome(target: array<byte>, buffer: array<byte>, offset: nat, position: nat) returns (r: Result<int, Failure>)
    requires target != buffer && offset < buffer.Length
    modifies buffer
    ensures r.Ok? ==> r.value <= buffer.Length - offset && (r.value > 0 ==> position + r.value <= target.Length)
    ensures r.Ok? ==> forall i | 0 <= i < buffer.Length ::
              buffer[i] == if offset <= i < offset + r.value then target[position + i - offset] else old(buffer[i])
    ensures r.Err? ==> r.error == OtherError(None)
  {
    var fails := Happens();
    if fails { return Err(OtherError(None)); }
    var count: int := *;
    if count > buffer.Length - offset || (count > 0 && position + count > target.Length) { count := 0; }
    var k := 0;
    while k < count
      invariant 0 <= k <= if count > 0 then count else 0
      invariant forall i | 0 <= i < buffer.Length ::
                  buffer[i] == if offset <= i < offset + k then target[position + i - offset] else old(buffer[i])
    {
      buffer[offset + k] := target[position + k];
      k := k + 1;
    }
    return Ok(count);
  }

  // ---- Writing ----

  /** Writes a whole chunk, however few bytes each call takes. */
  method WriteChunk(target: array<byte>, chunk: seq<byte>, position: nat) returns (r: Result<nat, Failure>)
    modifies target
    ensures r.Ok? ==> r.value == |chunk| && (chunk != [] ==> position + |chunk| <= target.Length)
    ensures r.Ok? ==> forall k | 0 <= k < |chunk| :: target[position + k] == chunk[k]
    ensures r.Err? ==> Raised(r.error) && r.error in {OtherError(None), WriteFailure(WriteCanceled), WriteFailure(ShortWrite)}
    ensures forall i | 0 <= i < target.Length && !(position <= i < position + |chunk|) :: target[i] == old(target[i])
  {
    var offset := 0;
    while offset < |chunk|
      invariant 0 <= offset <= |chunk| && (offset > 0 ==> position + offset <= target.Length)
      invariant forall k | 0 <= k < offset :: target[position + k] == chunk[k]
      invariant forall i | 0 <= i < target.Length && !(position <= i < position + |chunk|) :: target[i] == old(target[i])
    {
      var _ :- ThrowIfCanceled();
      var count :- WriteSome(target, chunk[offset..], position + offset);
      if count <= 0 {
        WriteFailureIsImaging(ShortWrite, None);
        return Err(WriteFailure(ShortWrite));
      }
      offset := offset + count;
    }
    return Ok(offset);
  }

  /** Writes the chunks one after another and checks their total length. */
  method WriteChunks(target: array<byte>, chunks: Chunks, expected: nat, progress: Progress) returns (r: Result<nat, Failure>)
    requires 0 < expected
    modifies target, progress
    ensures r.Ok? ==> r.value == expected == |Flatten(chunks)| <= target.Length && target[..expected] == Flatten(chunks)
    ensures r.Ok? ==> progress.active == Write
    ensures r == Err(WriteFailure(SourceSizeMismatch)) ==> |Flatten(chunks)| != expected
    ensures r.Err? ==> Raised(r.error) && progress.active in {old(progress.active), Write}
    ensures forall i | expected <= i < target.Length :: target[i] == old(target[i])
  {
    hide Flatten, FromImaging;
    AllChunks(chunks);
    var position := 0;
    for k := 0 to |chunks|
      invariant position == |Flatten(chunks[..k])| <= expected
      invariant position <= target.Length && target[..position] == Flatten(chunks[..k])
      invariant forall i | expected <= i < target.Length :: target[i] == old(target[i])
      invariant progress.active == if position == 0 then old(progress.active) else Write
    {
      var breaks := Happens();
      if breaks { return Err(OtherError(None)); }
      var _ :- ThrowIfCanceled();
      var chunk := chunks[k];
      NextChunk(chunks, k);
      if chunk != [] {
        if position + |chunk| > expected {
          WriteFailureIsImaging(SourceSizeMismatch, None);
          return Err(WriteFailure(SourceSizeMismatch));
        }
        ghost var done := target[..position];
        var written :- WriteChunk(target, chunk, position);
        assert target[..position] == done;
        assert target[position..position + |chunk|] == chunk;
        position := position + written;
        assert target[..position] == done + chunk;
        progress.active := Write;
      }
    }
    if position != expected {
      WriteFailureIsImaging(SourceSizeMismatch, None);
      return Err(WriteFailure(SourceSizeMismatch));
    }
    return Ok(position);
  }

  /** The end of a stream: its producer finishes, or everything is called off. */
  method EndStream(consumed: Result<nat, Failure>) returns (r: Result<nat, Failure>)
    requires consumed.Err? ==> Raised(consumed.error)
    ensures r.Ok? ==> r == consumed
    ensures r.Err? ==> FromImaging(r.error)
  {
    var completes := Happens();
    if consumed.Ok? && completes {
      // the stream has completed: only a late cancellation is left
      var late := ThrowIfCanceled();
      if late.Ok? { return consumed; }
    }
    var failure := if consumed.Err? then consumed.error else if completes then WriteFailure(WriteCanceled) else OtherError(None);
    if failure.WriteError? && failure.code == WriteCanceled && consumed.Ok? { WriteFailureIsImaging(WriteCanceled, None); }
    var aborted := Happens();
    var error := AsSourceFailure(failure, aborted);
    SourceFailureIsImaging(failure, aborted);
    var canceled := Happens();
    if !canceled && !(consumed.Ok? && completes) {
      CleanupFailureIsImaging(error);
      return Err(CleanupFailure(error, OtherError(None)));
    }
    return Err(error);
  }

  /** Closing the target's handle, which can fail on top of a failed operation. */
  method CloseTarget(operation: Result<nat, Failure>) returns (r: Result<nat, Failure>)
    requires operation.Err? ==> FromImaging(operation.error)
    ensures r.Ok? ==> r == operation
    ensures r.Err? ==> FromImaging(r.error)
  {
    var closes := Happens();
    if closes { return operation; }
    if operation.Ok? {
      RaisedClaimsNothing(OtherError(None));
      WriteFailureIsImaging(TargetAccess, Some(OtherError(None)));
      return Err(WriteError(TargetAccess, false, false, Some(OtherError(None))));
    }
    CleanupFailureIsImaging(operation.error);
    return Err(CleanupFailure(operation.error, OtherError(None)));
  }

  /** What comes before the stream: the length check, cancellation, opening the target. */
  method OpenTarget(expected: int) returns (r: Result<(), Failure>)
    ensures r.Ok? ==> ValidLength(expected)
    ensures r.Err? ==> FromImaging(r.error)
  {
    if !ValidLength(expected) {
      WriteFailureIsImaging(InvalidByteCount, None);
      return Err(WriteFailure(InvalidByteCount));
    }
    var _ :- ThrowIfCanceled();
    var opens := Happens();
    if !opens {
      RaisedClaimsNothing(OtherError(None));
      WriteFailureIsImaging(TargetAccess, Some(OtherError(None)));
      return Err(WriteError(TargetAccess, false, false, Some(OtherError(None))));
    }
    return Ok(());
  }

  /**
    The writer. If it returns, the target begins with exactly the source's bytes and the rest is
    untouched; whatever happens, nothing beyond the expected length is.
   */
  method WriteImage(target: array<byte>, chunks: Chunks, expected: int, progress: Progress) returns (r: Result<nat, Failure>)
    modifies target, progress
    ensures r.Ok? ==> 0 < r.value == expected == |Flatten(chunks)| <= target.Length && target[..expected] == Flatten(chunks)
    ensures r.Ok? ==> progress.active == Write
    ensures r.Err? ==> FromImaging(r.error) && progress.active in {old(progress.active), Write}
    ensures forall i | 0 <= i < target.Length && expected <= i :: target[i] == old(target[i])
  {
    var _ :- OpenTarget(expected);
    var consumed: Result<nat, Failure>;
    var early := ThrowIfCanceled();
    if early.Ok? {
      consumed := WriteChunks(target, chunks, expected, progress);
      consumed := EndStream(consumed);
    } else {
      consumed := Err(early.error);
    }
    if consumed.Ok? {
      var syncs := Happens();
      if !syncs {
        RaisedClaimsNothing(OtherError(None));
        WriteFailureIsImaging(WriteSyncFailed, Some(OtherError(None)));
        consumed := Err(WriteError(WriteSyncFailed, false, false, Some(OtherError(None))));
      }
    }
    r := CloseTarget(consumed);
  }

  // ---- Reading back ----

  /** Fills the whole buffer, however few bytes each call gives. */
  method ReadExact(target: array<byte>, buffer: array<byte>, position: nat) returns (r: Result<(), Failure>)
    requires target != buffer
    modifies buffer
    ensures r.Ok? && buffer.Length > 0 ==> position + buffer.Length <= target.Length
    ensures r.Ok? ==> forall k | 0 <= k < buffer.Length :: buffer[k] == target[position + k]
    ensures r.Err? ==> Raised(r.error) && r.error in {OtherError(None), WriteFailure(WriteCanceled), WriteFailure(ShortRead)}
  {
    var offset := 0;
    while offset < buffer.Length
      invariant 0 <= offset <= buffer.Length && (offset > 0 ==> position + offset <= target.Length)
      invariant forall k | 0 <= k < offset :: buffer[k] == target[position + k]
    {
      var _ :- ThrowIfCanceled();
      var count :- ReadSome(target, buffer, offset, position + offset);
      if count <= 0 {
        WriteFailureIsImaging(ShortRead, None);
        return Err(WriteFailure(ShortRead));
      }
      offset := offset + count;
    }
    return Ok(());
  }

  /** Byte by byte over the expected bytes. */
  method EqualBytes(expected: seq<byte>, actual: array<byte>) returns (equal: bool)
    requires actual.Length == |expected|
    ensures equal <==> actual[..] == expected
  {
    for k := 0 to |expected|
      invariant forall i | 0 <= i < k :: expected[i] == actual[i]
    {
      if expected[k] != actual[k] {
        assert actual[..][k] != expected[k];
        return false;
      }
    }
    return true;
  }

  method VerifyChunks(target: array<byte>, chunks: Chunks, expected: nat, progress: Progress) returns (r: Result<nat, Failure>)
    requires 0 < expected
    modifies progress
    ensures r.Ok? ==> r.value == expected == |Flatten(chunks)| <= target.Length && target[..expected] == Flatten(chunks)
    ensures r.Ok? ==> progress.active == Verify
    ensures r == Err(WriteFailure(ReadBackMismatch)) ==> !(Flatten(chunks) <= target[..])
    ensures r == Err(WriteFailure(SourceSizeMismatch)) ==> |Flatten(chunks)| != expected
    ensures r.Err? ==> Raised(r.error) && progress.active in {old(progress.active), Verify}
  {
    hide Flatten, FromImaging;
    AllChunks(chunks);
    var position := 0;
    for k := 0 to |chunks|
      invariant position == |Flatten(chunks[..k])| <= expected
      invariant position <= target.Length && target[..position] == Flatten(chunks[..k])
      invariant progress.active == if position == 0 then old(progress.active) else Verify
    {
      var breaks := Happens();
      if breaks { return Err(OtherError(None)); }
      var _ :- ThrowIfCanceled();
      var chunk := chunks[k];
      NextChunk(chunks, k);
      if chunk != [] {
        if position + |chunk| > expected {
          WriteFailureIsImaging(SourceSizeMismatch, None);
          return Err(WriteFailure(SourceSizeMismatch));
        }
        var actual := new byte[|chunk|];
        var _ :- ReadExact(target, actual, position);
        var equal := EqualBytes(chunk, actual);
        if !equal {
          assert actual[..] == target[position..position + |chunk|];
          ChunkDiffers(target[..], chunks, k);
          WriteFailureIsImaging(ReadBackMismatch, None);
          return Err(WriteFailure(ReadBackMismatch));
        }
        assert forall i | 0 <= i < |chunk| :: target[position + i] == actual[..][i];
        assert target[position..position + |chunk|] == chunk;
        assert target[..position + |chunk|] == target[..position] + chunk;
        position := position + |chunk|;
        progress.active := Verify;
      }
    }
    if position != expected {
      WriteFailureIsImaging(SourceSizeMismatch, None);
      return Err(WriteFailure(SourceSizeMismatch));
    }
    return Ok(position);
  }

  /** The verifier. If it returns, the target begins with exactly the bytes of its own stream. */
  method VerifyImage(target: array<byte>, chunks: Chunks, expected: int, progress: Progress) returns (r: Result<nat, Failure>)
    modifies progress
    ensures r.Ok? ==> 0 < r.value == expected == |Flatten(chunks)| <= target.Length && target[..expected] == Flatten(chunks)
    ensures r.Ok? ==> progress.active == Verify
    ensures r.Err? ==> FromImaging(r.error) && progress.active in {old(progress.active), Verify}
  {
    var _ :- OpenTarget(expected);
    var early := ThrowIfCanceled();
    var consumed: Result<nat, Failure> := Ok(0);
    if early.Ok? {
      consumed := VerifyChunks(target, chunks, expected, progress);
      consumed := EndStream(consumed);
    } else {
      consumed := Err(early.error);
    }
    r := CloseTarget(consumed);
  }
}
