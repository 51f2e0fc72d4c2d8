/**
  The content-verified download cache: a partial file that is resumed across interruptions, and an
  artifact path that only ever receives bytes matching the pinned hash.
 */
module DownloadCache {
  import opened Common

  type byte = bv8
  type Bytes = seq<byte>

  const MAX_SAFE: int := 0x1F_FFFF_FFFF_FFFF

  datatype Error =
    | CacheAccess | Canceled | ChecksumMismatch | DownloadInterrupted | DownloadSize | HttpResponse | InvalidRange
    | MetadataInvalid | RedirectRejected

  datatype Chunk = Data(bytes: Bytes) | NotBytes

  datatype Range = Range(start: nat, end: nat, total: nat)

  /**
    A server's answer: `range` and `length` are the headers, `length` negative for text that is no
    number; `breaks` says that the body ends with an error.
   */
  datatype Response = Response(status: int, range: Option<Range>, length: Option<int>, body: Option<seq<Chunk>>, breaks: bool)

  datatype Node = Regular(bytes: Bytes) | Irregular

  function Payload(c: Chunk): Bytes { if c.Data? then c.bytes else [] }

  function Body(chunks: seq<Chunk>): Bytes {
    if chunks == [] then [] else Payload(chunks[0]) + Body(chunks[1..])
  }

  lemma {:induction false} BodySnoc(chunks: seq<Chunk>, c: Chunk)
    ensures Body(chunks + [c]) == Body(chunks) + Payload(c)
  {
    if chunks == [] {
      assert chunks + [c] == [c] && [c][1..] == [];
    } else {
      assert (chunks + [c])[1..] == chunks[1..] + [c];
      BodySnoc(chunks[1..], c);
    }
  }

  lemma {:induction false} BodyPrefix(chunks: seq<Chunk>, k: nat)
    requires k <= |chunks|
    ensures Body(chunks[..k]) <= Body(chunks)
    decreases |chunks| - k
  {
    if k == |chunks| {
      assert chunks[..k] == chunks;
    } else {
      BodyPrefix(chunks, k + 1);
      assert chunks[..k + 1] == chunks[..k] + [chunks[k]];
      BodySnoc(chunks[..k], chunks[k]);
    }
  }

  /** The server sends nothing but the artifact's bytes, from where it says they start. */
  ghost predicate Honest(r: Response, artifact: Bytes) {
    r.body.Some? ==>
      && (r.status == 200 ==> Body(r.body.value) <= artifact)
      && (r.status == 206 && r.range.Some? && r.range.value.start <= r.range.value.end < |artifact| ==>
            Body(r.body.value) <= artifact[r.range.value.start..r.range.value.end + 1])
  }

  /** It sends all that is missing after `offset`. */
  ghost predicate Completes(r: Response, artifact: Bytes, offset: nat) {
    && r.body.Some? && !r.breaks && (forall c | c in r.body.value :: c.Data?)
    && (r.length.Some? ==> r.length.value == |Body(r.body.value)|)
    && ((r.status == 200 && Body(r.body.value) == artifact)
        || (r.status == 206 && 0 < offset < |artifact| && r.range == Some(Range(offset, |artifact| - 1, |artifact|))
            && Body(r.body.value) == artifact[offset..]))
  }

  /** The number of bytes that a partial response announces, if it answers the request. */
  function RangeByteLength(range: Option<Range>, offset: nat, expected: nat): Result<nat, Error> {
    if || range.None? || range.value.start > MAX_SAFE || range.value.end > MAX_SAFE || range.value.total > MAX_SAFE
       || range.value.start != offset || range.value.end < range.value.start || range.value.end >= range.value.total
       || range.value.total != expected
    then Err(InvalidRange)
    else Ok(range.value.end - range.value.start + 1)
  }

  /** A resumed response whose range is accepted lies inside the artifact, from the offset on. */
  lemma AcceptedRange(range: Option<Range>, offset: nat, expected: nat)
    ensures RangeByteLength(range, offset, expected).Ok? <==>
            range.Some? && range.value.start == offset && offset <= range.value.end < expected == range.value.total
            && expected <= MAX_SAFE
    ensures RangeByteLength(range, offset, expected).Ok? ==>
              1 <= RangeByteLength(range, offset, expected).value <= expected - offset
  {}

  /** What an accepted response is written after. */
  ghost predicate Follows(r: Response, image: Bytes, offset: nat, expected: nat, append: bool, announced: nat, base: Bytes) {
    && r.body.Some? && expected == |image|
    && if append then
         && 0 < offset && r.status == 206 && RangeByteLength(r.range, offset, expected) == Ok(announced)
         && |base| == offset && base <= image
       else r.status == 200 && announced == expected && base == []
  }

  /** With an honest server, everything received continues the artifact. */
  lemma HonestStaysPrefix(r: Response, image: Bytes, offset: nat, expected: nat, append: bool, announced: nat, base: Bytes)
    requires Follows(r, image, offset, expected, append, announced, base) && Honest(r, image)
    ensures base + Body(r.body.value) <= image
  {
    var body := Body(r.body.value);
    if append {
      var rest := image[offset..r.range.value.end + 1];
      PrefixAppended(base, body, rest);
      assert base + rest == image[..r.range.value.end + 1];
    } else {
      assert base + body == body;
    }
  }

  lemma CompleteIsWhole(r: Response, image: Bytes, offset: nat, expected: nat, append: bool, announced: nat, base: Bytes)
    requires Follows(r, image, offset, expected, append, announced, base) && Completes(r, image, offset)
    ensures base + Body(r.body.value) == image && |Body(r.body.value)| == announced && |base| + announced == |image|
    ensures !r.breaks && forall c | c in r.body.value :: c.Data?
  {
    if append { assert image[..offset] + image[offset..] == image; } else { assert base + image == image; }
  }

  class ArtifactCache {
    const hash: Bytes -> string
    const pin: string
    const byteLength: nat
    /** No call fails for reasons of its own and nobody cancels. */
    const reliable: bool
    var artifact: Option<Node>
    var partial: Option<Node>
    var quarantined: seq<Node>

    constructor (hash: Bytes -> string, pin: string, byteLength: nat, reliable: bool, artifact: Option<Node>, partial: Option<Node>)
      ensures this.hash == hash && this.pin == pin && this.byteLength == byteLength && this.reliable == reliable
      ensures this.artifact == artifact && this.partial == partial && quarantined == []
    {
      this.hash, this.pin, this.byteLength, this.reliable := hash, pin, byteLength, reliable;
      this.artifact, this.partial, quarantined := artifact, partial, [];
    }

    /** The bytes match the pin in length and hash. */
    ghost predicate Pinned(n: Option<Node>) {
      n.Some? && n.value.Regular? && |n.value.bytes| == byteLength && hash(n.value.bytes) == pin
    }

    /** The partial file is a beginning of the artifact. */
    ghost predicate Resumable(image: Bytes)
      reads this
    {
      partial.Some? && partial.value.Regular? ==> partial.value.bytes <= image
    }

    /** The pin is the artifact's. */
    ghost predicate Pins(image: Bytes) { |image| == byteLength && hash(image) == pin && 0 < byteLength <= MAX_SAFE }

    method Call(error: Error) returns (r: Result<(), Error>)
      ensures r.Err? ==> !reliable && r.error == error
    {
      var fails: bool := *;
      return if fails && !reliable then Err(error) else Ok(());
    }

    /** Appends to the partial file; what an unfinished call leaves is a beginning of the chunk. */
    method WriteAll(chunk: Bytes) returns (r: Result<(), Error>)
      requires partial.Some? && partial.value.Regular?
      modifies this`partial
      ensures partial.Some? && partial.value.Regular?
      ensures old(partial).value.bytes <= partial.value.bytes <= old(partial).value.bytes + chunk
      ensures r.Ok? ==> partial.value.bytes == old(partial).value.bytes + chunk
      ensures r.Err? ==> !reliable && r.error != DownloadSize
    {
      var offset := 0;
      while offset < |chunk|
        invariant 0 <= offset <= |chunk|
        invariant partial.Some? && partial.value.Regular?
        invariant partial.value.bytes == old(partial).value.bytes + chunk[..offset]
      {
        var _ :- Call(Canceled);
        var count: int :| count <= |chunk| - offset && (reliable ==> count >= 1);
        if count < 1 { return Err(DownloadInterrupted); }
        assert chunk[..offset] + chunk[offset..offset + count] == chunk[..offset + count];
        partial := Some(Regular(partial.value.bytes + chunk[offset..offset + count]));
        offset := offset + count;
        // the call can also report failure after some bytes have gone out
        var _ :- Call(DownloadInterrupted);
      }
      assert chunk[..offset] == chunk;
      return Ok(());
    }

    /** What a response may bring, and whether it is appended to the partial file. */
    method Accept(response: Response, offset: nat) returns (r: Result<(bool, nat), Error>)
      ensures r.Ok? ==> response.body.Some? && (response.length.Some? ==> response.length.value == r.value.1)
      ensures r.Ok? ==> if r.value.0 then offset > 0 && response.status == 206
                          && RangeByteLength(response.range, offset, byteLength) == Ok(r.value.1)
                        else response.status == 200 && r.value.1 == byteLength
      ensures r.Err? ==> r.error != DownloadSize || response.length.Some?
      ensures r.Err? && reliable ==> forall image | Pins(image) :: !Completes(response, image, offset)
    {
      var _ :- Call(Canceled);
      var _ :- Call(DownloadInterrupted);
      if 300 <= response.status < 400 { return Err(RedirectRejected); }
      var append := offset > 0;
      var announced := byteLength;
      if offset > 0 && response.status == 206 {
        announced :- RangeByteLength(response.range, offset, byteLength);
      } else if response.status == 200 {
        append := false;
      } else {
        return Err(HttpResponse);
      }
      if response.length.Some? && response.length.value != announced { return Err(DownloadSize); }
      if response.body.None? { return Err(DownloadInterrupted); }
      return Ok((append, announced));
    }

    /** Receives the body chunk by chunk, never writing past what is announced or expected. */
    method Receive(chunks: seq<Chunk>, breaks: bool, announced: nat, start: nat) returns (r: Result<nat, Error>)
      requires partial.Some? && partial.value.Regular? && |partial.value.bytes| == start <= byteLength
      modifies this`partial
      ensures partial.Some? && partial.value.Regular?
      ensures old(partial).value.bytes <= partial.value.bytes <= old(partial).value.bytes + Body(chunks)
      ensures r.Ok? ==> partial.value.bytes == old(partial).value.bytes + Body(chunks) && r.value == |Body(chunks)|
      ensures r.Ok? ==> r.value <= announced && start + r.value <= byteLength
      ensures r == Err(DownloadSize) ==> |Body(chunks)| > announced || start + |Body(chunks)| > byteLength
      ensures r.Err? && reliable ==>
                breaks || (exists c | c in chunks :: c.NotBytes?) || |Body(chunks)| > announced || start + |Body(chunks)| > byteLength
    {
      hide Body;
      ghost var base := partial.value.bytes;
      var received := 0;
      NothingReceived(base, chunks);
      for k := 0 to |chunks|
        invariant partial.Some? && partial.value.Regular?
        invariant partial.value.bytes == base + Body(chunks[..k])
        invariant received == |Body(chunks[..k])| <= announced && start + received <= byteLength
      {
        OneMoreChunk(base, chunks, k);
        var _ :- Call(Canceled);
        if chunks[k].NotBytes? {
          assert chunks[k] in chunks;
          return Err(DownloadInterrupted);
        }
        received := received + |chunks[k].bytes|;
        if received > announced || start + received > byteLength { return Err(DownloadSize); }
        var _ :- WriteAll(chunks[k].bytes);
      }
      assert chunks[..|chunks|] == chunks;
      if breaks { return Err(DownloadInterrupted); }
      var _ :- Call(Canceled);
      var _ :- Call(DownloadInterrupted);
      return Ok(received);
    }

    /** One request from the partial file's length on. */
    method DownloadArtifact(response: Response, offset: nat, ghost image: Bytes) returns (r: Result<(), Error>)
      requires if partial.None? then offset == 0 else partial.value.Regular? && offset == |partial.value.bytes|
      requires Pins(image)
      modifies this`partial
      ensures partial.Some? ==> partial.value.Regular?
      ensures old(Resumable(image)) && Honest(response, image) ==> Resumable(image)
      ensures r.Ok? ==> partial.Some? && |partial.value.bytes| == byteLength
      ensures reliable && old(Resumable(image)) && Completes(response, image, offset) && offset < byteLength ==>
                r.Ok? && partial == Some(Regular(image))
    {
      hide Honest, Completes, RangeByteLength;
      var accepted :- Accept(response, offset);
      var append, announced := accepted.0, accepted.1;
      AcceptedRange(response.range, offset, byteLength);
      var _ :- Call(CacheAccess);
      if !append || partial.None? { partial := Some(Regular([])); }
      var start := if append then offset else 0;
      ghost var base := partial.value.bytes;
      if Honest(response, image) && old(Resumable(image)) {
        HonestStaysPrefix(response, image, offset, byteLength, append, announced, base);
      }
      if old(Resumable(image)) && Completes(response, image, offset) {
        CompleteIsWhole(response, image, offset, byteLength, append, announced, base);
      }
      var received := Receive(response.body.value, response.breaks, announced, start);
      if received.Err? {
        if received.error == DownloadSize {
          var _ :- Call(CacheAccess);
          partial := None;
        }
        return Err(received.error);
      }
      if received.value != announced || start + received.value != byteLength { return Err(DownloadInterrupted); }
      return Ok(());
    }

    /** Whether the artifact path already holds pinned bytes. */
    method IsVerified() returns (r: Result<bool, Error>)
      ensures r.Ok? ==> (r.value <==> Pinned(artifact))
      ensures r.Err? ==> !reliable
    {
      var _ :- Call(CacheAccess);
      if artifact.None? || artifact.value.Irregular? || |artifact.value.bytes| != byteLength { return Ok(false); }
      var _ :- Call(CacheAccess);
      return Ok(hash(artifact.value.bytes) == pin);
    }

    method QuarantineArtifact() returns (r: Result<(), Error>)
      requires artifact.Some?
      modifies this`artifact, this`quarantined
      ensures (r.Ok? ==> artifact == None) && (artifact == None || artifact == old(artifact))
      ensures r.Err? ==> !reliable
    {
      var _ :- Call(CacheAccess);
      quarantined, artifact := quarantined + [artifact.value], None;
      var _ :- Call(CacheAccess);
      return Ok(());
    }

    method QuarantinePartial() returns (r: Result<(), Error>)
      requires partial.Some?
      modifies this`partial, this`quarantined
      ensures (r.Ok? ==> partial == None) && (partial == None || partial == old(partial))
      ensures r.Err? ==> !reliable
    {
      var _ :- Call(CacheAccess);
      quarantined, partial := quarantined + [partial.value], None;
      var _ :- Call(CacheAccess);
      return Ok(());
    }

    /** Renames the partial file, whose hash has been compared with the pin, to the artifact's path. */
    method Promote() returns (r: Result<(), Error>)
      requires Pinned(partial)
      modifies this`artifact, this`partial
      ensures r.Ok? ==> artifact == old(partial) && partial == None
      ensures (artifact == old(artifact) && partial == old(partial)) || (artifact == old(partial) && partial == None)
      ensures r.Err? ==> !reliable
    {
      var _ :- Call(CacheAccess);
      artifact, partial := partial, None;
      var _ :- Call(CacheAccess);
      return Ok(());
    }

    /** Promotes a partial file that is already complete; drops or sets aside one that cannot be resumed. */
    method PromoteCompletedPartial(ghost image: Bytes) returns (r: Result<bool, Error>)
      modifies this`artifact, this`partial, this`quarantined
      ensures r == Ok(true) ==> Pinned(artifact) && artifact == old(partial)
      ensures artifact == old(artifact) || Pinned(artifact)
      ensures partial == None || partial == old(partial)
      ensures r == Ok(false) ==> artifact == old(artifact)
      ensures r == Ok(false) && old(partial).Some? && old(partial).value.Regular? && |old(partial).value.bytes| < byteLength ==>
                partial == old(partial)
      ensures r == Ok(false) && partial.Some? ==> partial.value.Regular? && |partial.value.bytes| < byteLength
      ensures r.Err? ==> !reliable
    {
      var _ :- Call(CacheAccess);
      if partial.None? { return Ok(false); }
      if partial.value.Irregular? || |partial.value.bytes| != byteLength {
        if partial.value.Irregular? || |partial.value.bytes| > byteLength { var _ :- QuarantinePartial(); }
        return Ok(false);
      }
      var _ :- Call(CacheAccess);
      if hash(partial.value.bytes) != pin {
        var _ :- Call(CacheAccess);
        partial := None;
        return Ok(false);
      }
      var _ :- Promote();
      return Ok(true);
    }

    /** Compares the completed partial file with the pin and promotes it, or removes it. */
    method VerifyAndPromote() returns (r: Result<(), Error>)
      requires partial.Some? && partial.value.Regular? && |partial.value.bytes| == byteLength
      modifies this`artifact, this`partial
      ensures r.Ok? ==> Pinned(artifact)
      ensures artifact == old(artifact) || Pinned(artifact)
      ensures partial == None || partial == old(partial)
      ensures reliable && Pinned(old(partial)) ==> r.Ok?
    {
      var _ :- Call(CacheAccess);
      if hash(partial.value.bytes) != pin {
        var _ :- Call(CacheAccess);
        partial := None;
        return Err(ChecksumMismatch);
      }
      var _ :- Promote();
      return Ok(());
    }

    /**
      One acquisition under the lock. Whatever the server sends, the artifact path afterwards holds
      what it held, nothing, or pinned bytes, and only pinned bytes are returned. With an honest
      server the partial file stays a beginning of the artifact, and a response that sends the rest
      completes it.
     */
    method Acquire(response: Response, ghost image: Bytes) returns (r: Result<Bytes, Error>)
      requires Pins(image)
      modifies this`artifact, this`partial, this`quarantined
      ensures r.Ok? ==> artifact == Some(Regular(r.value)) && |r.value| == byteLength && hash(r.value) == pin
      ensures artifact == old(artifact) || artifact == None || Pinned(artifact)
      ensures old(Pinned(artifact)) ==> artifact == old(artifact)
      ensures old(Resumable(image)) && Honest(response, image) ==> Resumable(image)
      ensures reliable && old(Resumable(image)) && Completes(response, image, Missing(old(partial))) ==> r.Ok?
    {
      hide Honest, Completes;
      var _ :- Call(Canceled);
      var verified :- IsVerified();
      if !verified {
        var _ :- Call(CacheAccess);
        if artifact.Some? { var _ :- QuarantineArtifact(); }
        var promoted :- PromoteCompletedPartial(image);
        if !promoted {
          var _ :- Call(CacheAccess);
          var offset := if partial.None? then 0 else |partial.value.bytes|;
          var _ :- DownloadArtifact(response, offset, image);
          var _ :- VerifyAndPromote();
        }
      }
      var _ :- Call(MetadataInvalid);
      return Ok(artifact.value.bytes);
    }

    /** Where the download starts. */
    ghost function Missing(p: Option<Node>): nat {
      if p.Some? && p.value.Regular? && |p.value.bytes| < byteLength then |p.value.bytes| else 0
    }
  }

  lemma NothingReceived(base: Bytes, chunks: seq<Chunk>)
    ensures Body(chunks[..0]) == [] && base + Body(chunks[..0]) == base && chunks[..|chunks|] == chunks
  {}

  /** What is written after a chunk, or after a beginning of it, is a beginning of the body. */
  lemma OneMoreChunk(base: Bytes, chunks: seq<Chunk>, k: nat)
    requires k < |chunks|
    ensures Body(chunks[..k + 1]) == Body(chunks[..k]) + Payload(chunks[k])
    ensures base + Body(chunks[..k]) + Payload(chunks[k]) == base + Body(chunks[..k + 1])
    ensures base + Body(chunks[..k]) <= base + Body(chunks[..k + 1]) <= base + Body(chunks)
    ensures |Body(chunks[..k + 1])| <= |Body(chunks)|
  {
    assert chunks[..k + 1] == chunks[..k] + [chunks[k]];
    BodySnoc(chunks[..k], chunks[k]);
    BodyPrefix(chunks, k + 1);
    PrefixAppended(base, Body(chunks[..k]), Body(chunks[..k + 1]));
    PrefixAppended(base, Body(chunks[..k + 1]), Body(chunks));
  }

  lemma PrefixAppended(base: Bytes, a: Bytes, b: Bytes)
    requires a <= b
    ensures base + a <= base + b
  {
    assert (base + b)[..|base + a|] == base + b[..|a|];
  }

  /**
    Any number of acquisitions from an honest server, interrupted anywhere, and then one whose
    response sends what is missing: the last one returns pinned bytes.
   */
  method AcquireAfterInterruptions(hash: Bytes -> string, pin: string, image: Bytes, interrupted: seq<Response>, last: nat -> Response)
    returns (r: Result<Bytes, Error>)
    requires hash(image) == pin && 0 < |image| <= MAX_SAFE
    requires forall k | 0 <= k < |interrupted| :: Honest(interrupted[k], image)
    requires forall offset | 0 <= offset < |image| :: Completes(last(offset), image, offset)
    ensures r.Ok? && |r.value| == |image| && hash(r.value) == pin
  {
    var artifact: Option<Node>, partial: Option<Node> := None, None;
    for k := 0 to |interrupted|
      invariant partial.Some? && partial.value.Regular? ==> partial.value.bytes <= image
    {
      var cache := new ArtifactCache(hash, pin, |image|, false, artifact, partial);
      var _ := cache.Acquire(interrupted[k], image);
      assert cache.Resumable(image);
      artifact, partial := cache.artifact, cache.partial;
    }
    var cache := new ArtifactCache(hash, pin, |image|, true, artifact, partial);
    var offset := if partial.Some? && partial.value.Regular? && |partial.value.bytes| < |image| then |partial.value.bytes| else 0;
    r := cache.Acquire(last(offset), image);
  }
}
