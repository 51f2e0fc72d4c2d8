/**
  Moving a bootstrap secret into the account's home: four recorded phases around creating the
  destination and destroying the source.

  The destination directory is a disk of the durable store's file system. A run can lose power or
  be killed at any call, and any call can fail without effect. A kill leaves what is visible; a
  power loss leaves what the syncs made durable.
 */
module SecretInstall {
  import opened Common
  import opened DurableStore
  import opened Checkpoint

  type Bytes = seq<bv8>

  /** A destination file: its bytes, and whether owner, mode and link count are the required ones. */
  datatype Secret = Secret(bytes: Bytes, private: bool)

  datatype Cause = PowerLoss | Kill | CallFailed | InvalidConfiguration | VerificationFailed | MissingSource

  /**
    The two syncs that a later run does not repeat, that of the home after a directory has been made
    in it and that of the source's removal, and all other calls.
   */
  datatype Call = SyncHome | SyncRemoval | OtherCall

  datatype Stop = Stop(cause: Cause, at: Call)

  datatype SecretStep = SecretStep(id: string, secretId: string, destination: string)

  function Phase(step: SecretStep, phase: SecretPhase): SecretTransaction {
    SecretTransaction(step.destination, phase, step.secretId, step.id)
  }

  function AllPhases(): seq<SecretPhase> { [Prepared, Installed, SourceRemoved, Committed] }

  /** The phases still to record after `recovered`. */
  function PhasesAfter(recovered: Option<SecretTransaction>): seq<SecretPhase> {
    if recovered.None? then AllPhases() else AllPhases()[PhaseIndex(recovered.value.phase) + 1..]
  }

  /** The transactions for a sequence of phases. */
  function Phases(step: SecretStep, phases: seq<SecretPhase>): seq<SecretTransaction> {
    seq(|phases|, i requires 0 <= i < |phases| => Phase(step, phases[i]))
  }

  /** The checkpoint after recording a sequence of transactions, if every one is accepted. */
  function Record(c: RunnerCheckpoint, emitted: seq<SecretTransaction>, now: Time): Transition
    decreases |emitted|
  {
    if emitted == [] then Ok(c)
    else
      var next :- TransitionSecret(c, emitted[0], now);
      Record(next, emitted[1..], now)
  }

  /** The checkpoint never turns down the phases that a run emits. */
  lemma {:induction false} EmittedAreAccepted(c: RunnerCheckpoint, step: SecretStep, k: nat, now: Time)
    requires Valid(c) && c.terminal.None? && c.revision + k <= MAX_REVISION
    requires c.currentStep.Some? && c.currentStep.value.phase == Started && c.currentStep.value.id == step.id
    requires c.secret.Some? ==> c.secret.value == Phase(step, c.secret.value.phase)
    requires k <= |PhasesAfter(c.secret)|
    ensures Record(c, Phases(step, PhasesAfter(c.secret)[..k]), now).Ok?
    ensures var after := Record(c, Phases(step, PhasesAfter(c.secret)[..k]), now).value;
            after.secret == if k == 0 then c.secret else Some(Phase(step, PhasesAfter(c.secret)[k - 1]))
    decreases k
  {
    if k > 0 {
      var emitted := Phases(step, PhasesAfter(c.secret)[..k]);
      SecretAcceptedExactly(c, emitted[0], now);
      var next := TransitionSecret(c, emitted[0], now).value;
      EmittedAreAccepted(next, step, k - 1, now);
      assert PhasesAfter(next.secret) == PhasesAfter(c.secret)[1..];
      assert emitted[1..] == Phases(step, PhasesAfter(next.secret)[..k - 1]);
    }
  }

  predicate IsHex(c: char) { '0' <= c <= '9' || 'a' <= c <= 'f' }

  /** A version 4 UUID in lower case. */
  predicate IsUuid(u: string) {
    && |u| == 36 && u[14] == '4' && u[19] in "89ab"
    && forall i | 0 <= i < 36 :: if i == 8 || i == 13 || i == 18 || i == 23 then u[i] == '-' else IsHex(u[i])
  }

  /** A temporary file of an earlier run. */
  predicate IsLeftover(name: string, file: string) {
    |name| == |file| + 42 && name == TempName(file, name[|file| + 2..|file| + 38]) && IsUuid(name[|file| + 2..|file| + 38])
  }

  ghost predicate AllTrue(flags: seq<bool>) { forall f | f in flags :: f }

  /** Every visible name was visible before or is `name`. */
  ghost predicate OnlyAddsName(before: Disk<Secret>, after: Disk<Secret>, name: string)
    requires before.views != [] && after.views != []
  {
    forall n | n in after.Visible() && n != name :: n in before.Visible()
  }

  /** The first directory below the home, if there is one, is durable by name. */
  ghost predicate HomeSynced(flags: seq<bool>) { flags == [] || flags[0] }

  /** So is every directory below that one. */
  ghost predicate NestedSynced(flags: seq<bool>) { forall k | 1 <= k < |flags| :: flags[k] }

  lemma AllTrueParts(flags: seq<bool>)
    ensures AllTrue(flags) <==> HomeSynced(flags) && NestedSynced(flags)
  {
    assert forall k | 0 <= k < |flags| :: flags[k] in flags;
  }

  /**
    The destination shows the secret, and its directory has been synced since, as has every
    directory that names one of those leading to it, except perhaps the home.
   */
  ghost predicate Holds(d: Disk<Secret>, file: string, bytes: Bytes) {
    && Good(d, file) && d.Exists() && |d.views| == 1 && Current(d, file) == Some(Whole(Secret(bytes, true)))
    && NestedSynced(d.ancestors)
  }

  /** Such a destination is durable exactly when the home names its first directory durably. */
  lemma HoldsDurably(d: Disk<Secret>, file: string, bytes: Bytes)
    requires Holds(d, file, bytes)
    ensures Durable(d, file, Secret(bytes, true)) <==> HomeSynced(d.ancestors)
  {
    AllTrueParts(d.ancestors);
    if HomeSynced(d.ancestors) {
      SyncedIsDurable(d, file, Secret(bytes, true));
    } else {
      assert Shows(d, file, None);
    }
  }

  /** What each recorded phase has established. `source` is its presence since the last sync. */
  ghost predicate Established(d: Disk<Secret>, source: seq<bool>, file: string, bytes: Bytes, recorded: Option<SecretPhase>) {
    && source != []
    && (recorded.None? || recorded == Some(Prepared) ==> AllTrue(source))
    && (recorded.None? || recorded == Some(Prepared) || Holds(d, file, bytes))
    && (recorded == Some(SourceRemoved) || recorded == Some(Committed) ==> !source[|source| - 1])
  }

  /** Whatever a power loss leaves, it leaves the source or the installed secret. */
  ghost predicate NeverLost(d: Disk<Secret>, source: seq<bool>, file: string, bytes: Bytes) {
    AllTrue(source) || Durable(d, file, Secret(bytes, true))
  }

  /** Nothing that a run relies on is waiting for a sync. */
  ghost predicate Synced(d: Disk<Secret>, source: seq<bool>) {
    HomeSynced(d.ancestors) && |source| == 1
  }

  lemma SyncedIsNeverLost(d: Disk<Secret>, source: seq<bool>, file: string, bytes: Bytes, recorded: Option<SecretPhase>)
    requires Established(d, source, file, bytes, recorded)
    requires AllTrue(source) || HomeSynced(d.ancestors)
    ensures NeverLost(d, source, file, bytes)
  {
    if Holds(d, file, bytes) { HoldsDurably(d, file, bytes); }
  }

  class Installer {
    const step: SecretStep
    const file: string
    const bytes: Bytes
    /** The calls at which a run may stop, and those at which it does. */
    const mayStop: set<Call>
    const stops: set<Call>
    var disk: Disk<Secret>
    var source: seq<bool>
    var recorded: Option<SecretTransaction>
    var emitted: seq<SecretTransaction>

    constructor (step: SecretStep, file: string, bytes: Bytes, mayStop: set<Call>, stops: set<Call>,
                 disk: Disk<Secret>, source: seq<bool>, recorded: Option<SecretTransaction>)
      ensures this.step == step && this.file == file && this.bytes == bytes && this.mayStop == mayStop && this.stops == stops
      ensures this.disk == disk && this.source == source && this.recorded == recorded && emitted == []
    {
      this.step, this.file, this.bytes, this.mayStop, this.stops := step, file, bytes, mayStop, stops;
      this.disk, this.source, this.recorded, emitted := disk, source, recorded, [];
    }

    function RecordedPhase(): Option<SecretPhase>
      reads this
    {
      if recorded.Some? then Some(recorded.value.phase) else None
    }

    /** The phases still to be recorded. */
    ghost function Todo(): seq<SecretTransaction>
      reads this
    {
      Phases(step, PhasesAfter(recorded))
    }

    ghost predicate Mine()
      reads this
    {
      recorded.Some? ==> recorded.value == Phase(step, recorded.value.phase)
    }

    ghost predicate Ready()
      reads this
    {
      Mine() && Good(disk, file) && Established(disk, source, file, bytes, RecordedPhase())
    }

    predicate CanStop(at: Call) { at in mayStop || at in stops }

    method Attempt(at: Call) returns (r: Result<(), Stop>)
      ensures r.Err? ==> CanStop(at) && r.error.at == at
      ensures at in stops ==> r.Err?
    {
      var slips: bool, cause: Cause := *, *;
      return if at in stops || (slips && at in mayStop) then
        Err(Stop(if cause == PowerLoss || cause == Kill then cause else CallFailed, at)) else Ok(());
    }

    /**
      Opens a directory on the way, sets its owner and mode and syncs it, so that what it contains
      is durable: the name of the next directory, or the entries of the destination directory.
     */
    method OpenChild(k: nat) returns (r: Result<(), Stop>)
      requires Good(disk, file) && k < |disk.ancestors|
      modifies this`disk
      ensures Good(disk, file) && AddsOnly(old(disk), disk, file, None)
      ensures disk == if r.Err? then old(disk)
                else if k + 1 < |old(disk).ancestors| then old(disk).(ancestors := old(disk).ancestors[k + 1 := true])
                else if k + 1 == old(disk).depth then old(disk).(views := [old(disk).Visible()])
                else old(disk)
      ensures r.Err? ==> CanStop(OtherCall) && r.error.at == OtherCall
    {
      var _ :- Attempt(OtherCall);
      if k + 1 < |disk.ancestors| {
        AncestorsShow(disk, disk.ancestors[k + 1 := true], file);
        disk := disk.(ancestors := disk.ancestors[k + 1 := true]);
      } else if k + 1 == disk.depth {
        SyncShows(disk, file);
        disk := disk.(views := [disk.Visible()]);
      }
      return Ok(());
    }

    /** Makes the directory after the first `k` and syncs the one it was made in. */
    method MakeDirectory(k: nat) returns (r: Result<(), Stop>)
      requires Good(disk, file) && k == |disk.ancestors| < disk.depth
      modifies this`disk
      ensures Good(disk, file) && AddsOnly(old(disk), disk, file, None)
      ensures disk == old(disk).(ancestors := disk.ancestors) && old(disk).ancestors <= disk.ancestors && |disk.ancestors| <= k + 1
      ensures r.Ok? ==> disk.ancestors == old(disk).ancestors + [true]
      ensures r.Err? ==> CanStop(r.error.at) && r.error.at != SyncRemoval
      ensures r.Err? && r.error.at == SyncHome ==> k == 0 && disk.ancestors == [false]
      ensures r.Err? && r.error.at == OtherCall && k == 0 ==> disk.ancestors == []
      ensures k == 0 && SyncHome in stops ==> r.Err?
    {
      var _ :- Attempt(OtherCall);
      AncestorsShow(disk, disk.ancestors + [false], file);
      disk := disk.(ancestors := disk.ancestors + [false]);
      var _ :- Attempt(if k == 0 then SyncHome else OtherCall);
      AncestorsShow(disk, disk.ancestors[k := true], file);
      disk := disk.(ancestors := disk.ancestors[k := true]);
      return Ok(());
    }

    /**
      Makes the missing directories and opens them all, syncing the parent of each one made and
      every one opened. Only the home is not synced again for a directory that is already in it.
     */
    method OpenDirectory() returns (r: Result<(), Stop>)
      requires Good(disk, file)
      modifies this`disk
      ensures Good(disk, file) && AddsOnly(old(disk), disk, file, None)
      ensures disk == old(disk).(ancestors := disk.ancestors, views := disk.views)
      ensures disk.views == old(disk).views || disk.views == [old(disk).Visible()]
      ensures r.Err? ==> CanStop(r.error.at) && r.error.at != SyncRemoval
      ensures r.Err? && r.error.at == SyncHome ==> disk.views == old(disk).views
      ensures HomeSynced(disk.ancestors) <==> old(HomeSynced(disk.ancestors)) && (r.Ok? || r.error.at != SyncHome)
      ensures SyncHome in stops && old(disk).ancestors == [] && old(disk).depth > 0 ==> r.Err?
      ensures r.Ok? ==> disk.Exists() && NestedSynced(disk.ancestors)
    {
      var k := 0;
      while k < disk.depth
        invariant 0 <= k <= disk.depth && k <= |disk.ancestors| <= disk.depth
        invariant disk == old(disk).(ancestors := disk.ancestors, views := disk.views)
        invariant disk.views == old(disk).views || disk.views == [old(disk).Visible()]
        invariant Good(disk, file) && AddsOnly(old(disk), disk, file, None)
        invariant HomeSynced(disk.ancestors) <==> old(HomeSynced(disk.ancestors))
        invariant forall j | 1 <= j <= k && j < |disk.ancestors| :: disk.ancestors[j]
        invariant k == 0 ==> disk == old(disk)
        invariant SyncHome in stops && old(disk).ancestors == [] ==> k == 0
      {
        ghost var before := disk;
        if k == |disk.ancestors| { var _ :- MakeDirectory(k); }
        AddsOnlyTransitive(old(disk), before, disk, file, None);
        ghost var made := disk;
        var _ :- OpenChild(k);
        AddsOnlyTransitive(old(disk), made, disk, file, None);
        k := k + 1;
      }
      return Ok(());
    }

    method SyncDirectory() returns (r: Result<(), Stop>)
      requires Good(disk, file)
      modifies this`disk
      ensures Good(disk, file) && AddsOnly(old(disk), disk, file, None)
      ensures disk == if r.Ok? then old(disk).(views := [old(disk).Visible()]) else old(disk)
      ensures r.Err? ==> CanStop(OtherCall) && r.error.at == OtherCall
    {
      var _ :- Attempt(OtherCall);
      SyncShows(disk, file);
      disk := disk.(views := [disk.Visible()]);
      return Ok(());
    }

    method Unlink(name: string) returns (r: Result<(), Stop>)
      requires Good(disk, file) && name != file
      modifies this`disk
      ensures Good(disk, file) && AddsOnly(old(disk), disk, file, None) && disk == old(disk).(views := disk.views)
      ensures forall n | n in disk.Visible() :: n in old(disk).Visible()
      ensures r.Err? ==> CanStop(OtherCall) && r.error.at == OtherCall
    {
      var _ :- Attempt(OtherCall);
      if name in disk.Visible() {
        var view := disk.Visible() - {name};
        assert disk.Visible() in disk.views;
        PushShows(disk, view, file);
        assert At(disk, view, file) == At(disk, disk.Visible(), file);
        disk := Push(disk, view);
      }
      return Ok(());
    }

    /** Removes leftovers of earlier runs; one that does not look like ours stays. */
    method CleanupTemps() returns (r: Result<(), Stop>)
      requires Good(disk, file)
      modifies this`disk
      ensures Good(disk, file) && AddsOnly(old(disk), disk, file, None) && disk == old(disk).(views := disk.views)
      ensures forall n | n in disk.Visible() :: n in old(disk).Visible()
      ensures r.Err? ==> CanStop(OtherCall) && r.error.at == OtherCall
    {
      var temps := set n | n in disk.Visible() && IsLeftover(n, file);
      var removed := false;
      while temps != {}
        invariant file !in temps
        invariant Good(disk, file) && AddsOnly(old(disk), disk, file, None) && disk == old(disk).(views := disk.views)
        invariant forall n | n in disk.Visible() :: n in old(disk).Visible()
      {
        var name :| name in temps;
        temps := temps - {name};
        var foreign: bool := *;
        if !foreign {
          var _ :- Unlink(name);
          removed := true;
        }
      }
      if removed { var _ :- SyncDirectory(); }
      return Ok(());
    }

    method Store(inode: Inode, secret: File<Secret>) returns (r: Result<(), Stop>)
      requires Good(disk, file) && disk.Exists() && forall v | v in disk.views && file in v :: v[file] != inode
      modifies this`disk
      ensures Good(disk, file) && AddsOnly(old(disk), disk, file, None)
      ensures disk == if r.Ok? then old(disk).(files := old(disk).files[inode := secret]) else old(disk)
      ensures r.Err? ==> CanStop(OtherCall) && r.error.at == OtherCall
    {
      var _ :- Attempt(OtherCall);
      WriteShows(disk, inode, secret, file);
      disk := disk.(files := disk.files[inode := secret]);
      return Ok(());
    }

    /** Creates the empty temporary file. */
    method CreateTemp(temp: string) returns (r: Result<Inode, Stop>)
      requires Good(disk, file) && disk.Exists() && temp != file
      requires !CanStop(OtherCall) ==> temp !in disk.Visible()
      modifies this`disk
      ensures Good(disk, file) && OnlyAddsName(old(disk), disk, temp)
      ensures Good(disk, file) && disk.ancestors == old(disk).ancestors && disk.depth == old(disk).depth
      ensures AddsOnly(old(disk), disk, file, None)
      ensures r.Ok? ==> forall v | v in disk.views && file in v :: v[file] != r.value
      ensures r.Err? ==> CanStop(OtherCall) && r.error.at == OtherCall
    {
      var _ :- Attempt(OtherCall);
      if temp in disk.Visible() { return Err(Stop(CallFailed, OtherCall)); }
      var inode := Fresh(disk.files.Keys);
      assert disk.Visible() in disk.views;
      assert forall v | v in disk.views && file in v :: v[file] in disk.files;
      ghost var before := disk;
      var _ :- Store(inode, File(Torn, false));
      var view := disk.Visible()[temp := inode];
      assert disk.Visible() in disk.views;
      PushShows(disk, view, file);
      assert At(disk, view, file) == At(disk, disk.Visible(), file);
      disk := Push(disk, view);
      return Ok(inode);
    }

    /** Creates the temporary file with the secret, its owner and its mode, and syncs it. */
    method WriteTemp(temp: string) returns (r: Result<Inode, Stop>)
      requires Good(disk, file) && disk.Exists() && temp != file
      requires !CanStop(OtherCall) ==> temp !in disk.Visible()
      modifies this`disk
      ensures Good(disk, file) && OnlyAddsName(old(disk), disk, temp)
      ensures Good(disk, file) && disk.ancestors == old(disk).ancestors && disk.depth == old(disk).depth
      ensures AddsOnly(old(disk), disk, file, None)
      ensures r.Ok? ==> r.value in disk.files && disk.files[r.value] == File(Whole(Secret(bytes, true)), true)
      ensures r.Err? ==> CanStop(OtherCall) && r.error.at == OtherCall
    {
      hide Good, AddsOnly;
      var inode :- CreateTemp(temp);
      ghost var d0 := disk;
      var _ :- Store(inode, File(Whole(Secret(bytes, false)), false));
      AddsOnlyTransitive(old(disk), d0, disk, file, None);
      ghost var d1 := disk;
      var _ :- Store(inode, File(Whole(Secret(bytes, false)), true));
      AddsOnlyTransitive(old(disk), d1, disk, file, None);
      ghost var d2 := disk;
      var _ :- Store(inode, File(Whole(Secret(bytes, true)), false));
      AddsOnlyTransitive(old(disk), d2, disk, file, None);
      ghost var d3 := disk;
      var _ :- Store(inode, File(Whole(Secret(bytes, true)), true));
      AddsOnlyTransitive(old(disk), d3, disk, file, None);
      return Ok(inode);
    }

    /** Renames the temporary file over the destination and syncs the directory. */
    method Publish(temp: string, inode: Inode) returns (r: Result<bool, Stop>)
      requires Good(disk, file) && disk.Exists() && NestedSynced(disk.ancestors) && temp != file
      requires inode in disk.files && disk.files[inode] == File(Whole(Secret(bytes, true)), true)
      modifies this`disk
      ensures r == Ok(true) ==> Good(disk, file) && OnlyAddsName(old(disk), disk, file) && temp !in disk.Visible()
      ensures Good(disk, file) && disk.ancestors == old(disk).ancestors && disk.depth == old(disk).depth
      ensures AddsOnly(old(disk), disk, file, Some(Secret(bytes, true)))
      ensures r == Ok(true) ==> Holds(disk, file, bytes)
      ensures r == Ok(false) ==> CanStop(OtherCall) && disk == old(disk)
      ensures r.Err? ==> CanStop(OtherCall) && r.error.at == OtherCall
    {
      var renamed := Attempt(OtherCall);
      if renamed.Err? && renamed.error.cause == CallFailed { return Ok(false); }
      if renamed.Err? { return Err(renamed.error); }
      var view := (disk.Visible() - {temp})[file := inode];
      assert disk.Visible() in disk.views;
      PushShows(disk, view, file);
      disk := Push(disk, view);
      assert AddsOnly(old(disk), disk, file, Some(Secret(bytes, true)));
      var _ :- SyncDirectory();
      return Ok(true);
    }

    /**
      Installs the secret. Wherever it stops, the destination is what it could be before or
      exactly the secret.
     */
    method Install(unique: string) returns (r: Result<(), Stop>)
      requires Good(disk, file) && IsUuid(unique)
      requires !CanStop(OtherCall) ==> TempName(file, unique) !in disk.Visible()
      modifies this`disk
      ensures r.Ok? ==> Good(disk, file) && OnlyAddsName(old(disk), disk, file)
      ensures Good(disk, file) && AddsOnly(old(disk), disk, file, Some(Secret(bytes, true)))
      ensures r.Err? ==> CanStop(r.error.at) && r.error.at != SyncRemoval
      ensures HomeSynced(disk.ancestors) <==> old(HomeSynced(disk.ancestors)) && (r.Ok? || r.error.at != SyncHome)
      ensures SyncHome in stops && old(disk).ancestors == [] && old(disk).depth > 0 ==> r.Err?
      ensures r.Err? && r.error.at == SyncHome ==> disk.views == old(disk).views
      ensures r.Ok? ==> Holds(disk, file, bytes)
    {
      var temp := TempName(file, unique);
      var _ :- OpenDirectory();
      var cleaned := CleanupTemps();
      if cleaned.Err? { return Err(Stop(cleaned.error.cause, OtherCall)); }
      var written := WriteTemp(temp);
      if written.Err? && written.error.cause != CallFailed { return Err(written.error); }
      if written.Ok? {
        var published :- Publish(temp, written.value);
        if published { return Ok(()); }
      }
      var unlinked := Unlink(temp);
      return Err(Stop(if unlinked.Ok? then CallFailed else unlinked.error.cause, OtherCall));
    }

    /** Whether the destination is there with the right status and, if asked, the secret's bytes. */
    method Verify(expected: Option<Bytes>) returns (r: Result<(), Stop>)
      requires Good(disk, file)
      ensures r.Ok? ==> disk.Exists() && Current(disk, file).Some? && Current(disk, file).value.doc.private
      ensures r.Ok? && expected.Some? ==> Current(disk, file).value.doc.bytes == expected.value
      ensures r.Err? ==> r.error.at == OtherCall
      ensures r.Err? && !CanStop(OtherCall) && disk.Exists() && Current(disk, file).Some? ==>
                !Current(disk, file).value.doc.private || (expected.Some? && Current(disk, file).value.doc.bytes != expected.value)
    {
      var _ :- Attempt(OtherCall);
      assert disk.Visible() in disk.views;
      if |disk.ancestors| < disk.depth || file !in disk.Visible() { return Err(Stop(VerificationFailed, OtherCall)); }
      var found := disk.files[disk.Visible()[file]].text.doc;
      if !found.private || (expected.Some? && found.bytes != expected.value) {
        return Err(Stop(VerificationFailed, OtherCall));
      }
      return Ok(());
    }

    /** Records the next phase; a failed write may or may not have taken effect. */
    method Mark(phase: SecretPhase) returns (r: Result<(), Stop>)
      requires Ready() && PhasesAfter(recorded) != [] && PhasesAfter(recorded)[0] == phase
      requires Established(disk, source, file, bytes, Some(phase))
      modifies this`recorded, this`emitted
      ensures Ready() && emitted == old(emitted) + [Phase(step, phase)]
      ensures r.Ok? ==> recorded == Some(Phase(step, phase))
      ensures r.Err? ==> CanStop(OtherCall) && r.error.at == OtherCall && recorded in {old(recorded), Some(Phase(step, phase))}
    {
      emitted := emitted + [Phase(step, phase)];
      var _ :- Attempt(OtherCall);
      recorded := Some(Phase(step, phase));
      var _ :- Attempt(OtherCall);
      return Ok(());
    }

    /** Reads the source if it is visible. */
    method ReadSource() returns (r: Result<Option<Bytes>, Stop>)
      requires source != []
      ensures r.Ok? ==> r.value == if source[|source| - 1] then Some(bytes) else None
      ensures r.Err? ==> CanStop(OtherCall) && r.error.at == OtherCall
    {
      var _ :- Attempt(OtherCall);
      return Ok(if source[|source| - 1] then Some(bytes) else None);
    }

    /** Unlinks the source and syncs its directory. */
    method RemoveSource() returns (r: Result<(), Stop>)
      requires source != [] && source[|source| - 1]
      modifies this`source
      ensures SyncRemoval in stops ==> r.Err?
      ensures r.Ok? ==> source == [false]
      ensures r.Err? ==> CanStop(r.error.at) && source == if r.error.at == SyncRemoval then old(source) + [false] else old(source)
      ensures r.Err? ==> r.error.at != SyncHome
    {
      var _ :- Attempt(OtherCall);
      source := source + [false];
      var _ :- Attempt(SyncRemoval);
      source := [false];
      return Ok(());
    }

    /** The phase `prepared`. */
    method Prepare() returns (r: Result<(), Stop>)
      requires Ready() && recorded == None
      modifies this`recorded, this`emitted
      ensures Ready()
      ensures r.Ok? ==> recorded == Some(Phase(step, Prepared)) && emitted + Todo() == old(emitted + Todo())
      ensures r.Err? ==> CanStop(OtherCall) && r.error.at == OtherCall
      ensures r.Err? ==> emitted <= old(emitted + Todo())
    {
      var read :- ReadSource();
      assert source[|source| - 1] in source;
      if read == None { return Err(Stop(MissingSource, OtherCall)); }
      FirstPhase(step, recorded);
      r := Mark(Prepared);
    }

    /** From `prepared` to `installed`. */
    method InstallPrepared(unique: string) returns (r: Result<(), Stop>)
      requires Ready() && recorded == Some(Phase(step, Prepared)) && IsUuid(unique)
      requires !CanStop(OtherCall) ==> TempName(file, unique) !in disk.Visible()
      modifies this`disk, this`recorded, this`emitted
      ensures r.Ok? ==> Good(disk, file) && OnlyAddsName(old(disk), disk, file)
      ensures Ready()
      ensures r.Ok? ==> recorded == Some(Phase(step, Installed)) && emitted + Todo() == old(emitted + Todo())
      ensures r.Err? ==> CanStop(r.error.at)
      ensures HomeSynced(disk.ancestors) <==> old(HomeSynced(disk.ancestors)) && (r.Ok? || r.error.at != SyncHome)
      ensures SyncHome in stops && old(disk).ancestors == [] && old(disk).depth > 0 ==> r.Err?
      ensures r.Err? && r.error.at == SyncHome ==> disk.views == old(disk).views
      ensures r.Err? ==> emitted <= old(emitted + Todo())
      ensures r.Err? && r.error.at != OtherCall ==> r.error.at == SyncHome && recorded == old(recorded)
    {
      hide AddsOnly, Phases, HomeSynced, NestedSynced, OnlyAddsName, TempName, IsUuid;
      var read :- ReadSource();
      assert source[|source| - 1] in source;
      if read == None { return Err(Stop(MissingSource, OtherCall)); }
      var _ :- Install(unique);
      var verified := Verify(read);
      if verified.Err? { return verified; }
      FirstPhase(step, recorded);
      r := Mark(Installed);
    }

    /** From `installed` to `source-removed`. */
    method RemoveInstalled() returns (r: Result<(), Stop>)
      requires Ready() && recorded == Some(Phase(step, Installed))
      modifies this`source, this`recorded, this`emitted
      ensures SyncRemoval in stops && old(source[|source| - 1]) ==> r.Err?
      ensures Ready()
      ensures r.Ok? ==> recorded == Some(Phase(step, SourceRemoved)) && emitted + Todo() == old(emitted + Todo())
      ensures r.Ok? ==> source == if old(source[|source| - 1]) then [false] else old(source)
      ensures r.Err? ==> CanStop(r.error.at) && r.error.at != SyncHome
      ensures r.Err? && r.error.at == OtherCall ==> source == old(source) || (old(source[|source| - 1]) && source == [false])
      ensures r.Err? && r.error.at == SyncRemoval ==> old(source[|source| - 1]) && source == old(source) + [false]
      ensures r.Err? && r.error.at != OtherCall ==> r.error.at == SyncRemoval && recorded == old(recorded)
      ensures r.Err? ==> emitted <= old(emitted + Todo())
    {
      var read :- ReadSource();
      var verified := Verify(read);
      if verified.Err? { return verified; }
      if read.Some? { var _ :- RemoveSource(); }
      FirstPhase(step, recorded);
      r := Mark(SourceRemoved);
    }

    /** From `source-removed` to `committed`, and the check of a committed transaction. */
    method CheckRemoved() returns (r: Result<(), Stop>)
      requires Ready() && RecordedPhase() in {Some(SourceRemoved), Some(Committed)}
      ensures r.Err? ==> CanStop(OtherCall) && r.error.at == OtherCall
    {
      var present :- ReadSource();
      if present.Some? { return Err(Stop(VerificationFailed, OtherCall)); }
      r := Verify(None);
    }

    /** Records `committed` after the check. */
    method Commit() returns (r: Result<(), Stop>)
      requires Ready() && recorded == Some(Phase(step, SourceRemoved))
      modifies this`recorded, this`emitted
      ensures Ready()
      ensures r.Ok? ==> recorded == Some(Phase(step, Committed)) && emitted + Todo() == old(emitted + Todo())
      ensures r.Err? ==> CanStop(OtherCall) && r.error.at == OtherCall && emitted <= old(emitted + Todo())
    {
      FirstPhase(step, recorded);
      var _ :- CheckRemoved();
      r := Mark(Committed);
    }

    /** What a stop at a call says about the state: the phase, and the source as it was or as removed. */
    ghost predicate StoppedAt(at: Call, source0: seq<bool>, disk0: Disk<Secret>)
      requires source0 != []
      reads this
    {
      match at
      case SyncHome => RecordedPhase() == Some(Prepared) && source == source0 && disk.views == disk0.views
      case SyncRemoval => RecordedPhase() == Some(Installed) && source0[|source0| - 1] && source == source0 + [false]
      case OtherCall => source == source0 || (source0[|source0| - 1] && source == [false])
    }

    /** The phases up to `installed`, in which the source stays. */
    method AdvanceToInstalled(unique: string) returns (r: Result<(), Stop>)
      requires Ready() && emitted == [] && IsUuid(unique)
      requires !CanStop(OtherCall) ==> TempName(file, unique) !in disk.Visible()
      modifies this`disk, this`recorded, this`emitted
      ensures r.Ok? ==> Good(disk, file) && OnlyAddsName(old(disk), disk, file)
      ensures Ready()
      ensures if r.Ok? then recorded.Some? && recorded.value.phase != Prepared && emitted + Todo() == old(Todo()) else emitted <= old(Todo())
      ensures r.Ok? && old(RecordedPhase()) != None && old(RecordedPhase()) != Some(Prepared) ==>
                disk == old(disk) && recorded == old(recorded) && emitted == []
      ensures r.Ok? && (old(RecordedPhase()) == None || old(RecordedPhase()) == Some(Prepared)) ==> RecordedPhase() == Some(Installed)
      ensures HomeSynced(disk.ancestors) <==> old(HomeSynced(disk.ancestors)) && (r.Ok? || r.error.at != SyncHome)
      ensures r.Err? ==> CanStop(r.error.at) && r.error.at != SyncRemoval && StoppedAt(r.error.at, source, old(disk))
      ensures r.Err? ==> old(RecordedPhase()) == None || old(RecordedPhase()) == Some(Prepared)
      ensures SyncHome in stops && old(disk).ancestors == [] && old(disk).depth > 0 && old(recorded).None? ==> r.Err?
    {
      hide Good, Holds, Phases, PhasesAfter, AllTrue, HomeSynced, TempName, IsUuid, Established;
      if recorded.None? { var _ :- Prepare(); }
      if RecordedPhase() == Some(Prepared) { var _ :- InstallPrepared(unique); }
      assert [] + Todo() == Todo();
      return Ok(());
    }

    /** The phases of a transaction that is ours. */
    method Advance(unique: string) returns (r: Result<(), Stop>)
      requires Ready() && emitted == [] && IsUuid(unique)
      requires !CanStop(OtherCall) ==> TempName(file, unique) !in disk.Visible()
      modifies this`disk, this`source, this`recorded, this`emitted
      ensures Ready() && emitted <= old(Todo())
      ensures r.Ok? ==> emitted == old(Todo()) && RecordedPhase() == Some(Committed)
      ensures r.Ok? ==> source == if old(source[|source| - 1]) then [false] else old(source)
      ensures HomeSynced(disk.ancestors) <==> old(HomeSynced(disk.ancestors)) && (r.Ok? || r.error.at != SyncHome)
      ensures r.Err? ==> CanStop(r.error.at) && StoppedAt(r.error.at, old(source), old(disk))
      ensures old(RecordedPhase()) == Some(Installed) ==> disk == old(disk)
      ensures SyncRemoval in stops && old(source[|source| - 1]) ==> r.Err?
      ensures r.Err? && r.error.at == SyncRemoval ==> Good(disk, file) && OnlyAddsName(old(disk), disk, file)
      ensures SyncHome in stops && old(disk).ancestors == [] && old(disk).depth > 0 && old(recorded).None? ==> r.Err?
    {
      hide Good, Holds, Phases, PhasesAfter, AllTrue, HomeSynced, TempName, IsUuid;
      var _ :- AdvanceToInstalled(unique);
      if RecordedPhase() == Some(Installed) { var _ :- RemoveInstalled(); }
      if RecordedPhase() == Some(SourceRemoved) { var _ :- Commit(); }
      assert recorded.Some? && recorded.value.phase.Committed?;
      FirstPhase(step, recorded);
      assert emitted == emitted + Todo() == old(Todo()) && old(Todo())[..|emitted|] == emitted;
      r := CheckRemoved();
    }

    /**
      One run of the step. It emits the phases after the recovered one in order, and keeps the
      secret safe wherever it stops if the home and the source's removal were synced. If it
      returns, the secret is durable exactly if the home named its first directory durably before:
      every directory below that one is synced on the way. The home comes to wait for a sync
      exactly when the run stops at it, and the source exactly when it stops at the sync of its
      removal. If it cannot stop, it commits.
     */
    method Execute(unique: string) returns (r: Result<(), Stop>)
      requires Good(disk, file) && source != [] && (Mine() ==> Ready()) && IsUuid(unique)
      requires !CanStop(OtherCall) ==> TempName(file, unique) !in disk.Visible()
      modifies this`disk, this`source, this`recorded, this`emitted
      ensures old(Mine()) ==> Ready() && emitted <= old(Todo())
      ensures r.Ok? ==> old(Mine()) && emitted == old(Todo())
      ensures r.Ok? ==> RecordedPhase() == Some(Committed) && Holds(disk, file, bytes) && !source[|source| - 1]
      ensures r.Ok? ==> (Durable(disk, file, Secret(bytes, true)) <==> old(HomeSynced(disk.ancestors)))
      ensures r.Ok? ==> source == if old(source[|source| - 1]) then [false] else old(source)
      ensures HomeSynced(disk.ancestors) <==> old(HomeSynced(disk.ancestors)) && (r.Ok? || r.error.at != SyncHome)
      ensures old(Mine()) && r.Err? ==> CanStop(r.error.at) && StoppedAt(r.error.at, old(source), old(disk))
      ensures old(Mine() && Synced(disk, source)) ==> NeverLost(disk, source, file, bytes)
      ensures old(Mine()) && old(RecordedPhase()) == Some(Installed) ==> disk == old(disk)
      ensures old(Mine()) && SyncRemoval in stops && old(source[|source| - 1]) ==> r.Err?
      ensures old(Mine()) && r.Err? && r.error.at == SyncRemoval ==> OnlyAddsName(old(disk), disk, file)
      ensures SyncHome in stops && old(disk).ancestors == [] && old(disk).depth > 0 && old(recorded).None? ==> r.Err?
      ensures !old(Mine()) ==> emitted == [] && disk == old(disk) && source == old(source) && recorded == old(recorded)
    {
      emitted := [];
      var _ :- Attempt(OtherCall);
      if recorded.Some? && recorded.value != Phase(step, recorded.value.phase) {
        return Err(Stop(InvalidConfiguration, OtherCall));
      }
      r := Advance(unique);
      if r.Ok? { HoldsDurably(disk, file, bytes); }
      if old(Synced(disk, source)) {
        assert r.Err? && r.error.at == SyncHome ==> source == old(source) && AllTrue(source);
        SyncedIsNeverLost(disk, source, file, bytes, RecordedPhase());
      }
    }
  }

  lemma FirstPhase(step: SecretStep, recorded: Option<SecretTransaction>)
    ensures var todo := PhasesAfter(recorded);
            if recorded.Some? && recorded.value.phase == Committed then todo == [] && Phases(step, todo) == []
            else todo != [] && Phases(step, todo) == [Phase(step, todo[0])] + Phases(step, PhasesAfter(Some(Phase(step, todo[0]))))
  {}

  /** An installed secret survives every power loss exactly when the home names its first directory durably. */
  lemma InstalledSurvivesExactly(d: Disk<Secret>, file: string, bytes: Bytes)
    requires Holds(d, file, bytes)
    ensures (forall e | Survives(d, e) :: Current(e, file) == Some(Whole(Secret(bytes, true)))) <==> HomeSynced(d.ancestors)
  {
    AllTrueParts(d.ancestors);
    SyncedSurvivesExactly(d, file, Secret(bytes, true));
  }

  /** A power loss keeps what the recorded phase established. */
  lemma LossKeepsEstablished(d: Disk<Secret>, e: Disk<Secret>, source: seq<bool>, kept: bool, file: string, bytes: Bytes, recorded: Option<SecretPhase>)
    requires Good(d, file) && Established(d, source, file, bytes, recorded) && Survives(d, e) && kept in source
    requires recorded == Some(Installed) || recorded == Some(SourceRemoved) || recorded == Some(Committed) ==> HomeSynced(d.ancestors)
    requires recorded == Some(SourceRemoved) || recorded == Some(Committed) ==> |source| == 1
    ensures Good(e, file) && HomeSynced(e.ancestors) && Established(e, [kept], file, bytes, recorded)
  {
    SurvivorIsSettled(d, e, file);
    AllTrueParts(e.ancestors);
    if Holds(d, file, bytes) && HomeSynced(d.ancestors) {
      HoldsDurably(d, file, bytes);
      LossShowsAView(d, e, file);
    }
    if recorded.Some? { match recorded.value { case Prepared => case Installed => case SourceRemoved => case Committed => } }
  }

  /**
    What one process leaves for the next. `gap` says that the name of the first directory below the
    home, and `removalGap` that the source's removal, waits for a sync that no later run repeats.
   */
  datatype Left = Left(disk: Disk<Secret>, source: seq<bool>, recorded: Option<SecretTransaction>, gap: bool, removalGap: bool) {
    function RecordedPhase(): Option<SecretPhase> { if recorded.Some? then Some(recorded.value.phase) else None }
  }

  ghost predicate Resumable(left: Left, step: SecretStep, file: string, bytes: Bytes) {
    && Good(left.disk, file)
    && (left.recorded.Some? ==> left.recorded.value == Phase(step, left.recorded.value.phase))
    && Established(left.disk, left.source, file, bytes, left.RecordedPhase())
    && (left.gap <==> !HomeSynced(left.disk.ancestors))
    && (left.removalGap <==> |left.source| > 1) && (left.removalGap ==> left.source == [true, false])
  }

  /** A power loss can take nothing back that a recorded phase relies on. */
  predicate LossIsSafe(left: Left) {
    var phase := left.RecordedPhase();
    && (left.gap ==> phase == None || phase == Some(Prepared))
    && (left.removalGap ==> phase != Some(SourceRemoved) && phase != Some(Committed))
  }

  /** A power loss leaves a resumable state, whatever it takes, exactly if it comes at a safe point. */
  lemma LossIsSafeExactly(left: Left, step: SecretStep, file: string, bytes: Bytes)
    requires Resumable(left, step, file, bytes)
    ensures (forall e, kept | Survives(left.disk, e) && kept in left.source ::
               Resumable(Left(e, [kept], left.recorded, false, false), step, file, bytes)) <==> LossIsSafe(left)
  {
    var phase := left.RecordedPhase();
    if LossIsSafe(left) {
      forall e, kept | Survives(left.disk, e) && kept in left.source
        ensures Resumable(Left(e, [kept], left.recorded, false, false), step, file, bytes)
      {
        LossKeepsEstablished(left.disk, e, left.source, kept, file, bytes, phase);
      }
    } else if left.gap && phase != None && phase != Some(Prepared) {
      InstalledSurvivesExactly(left.disk, file, bytes);
      var e :| Survives(left.disk, e) && Current(e, file) != Some(Whole(Secret(bytes, true)));
      var kept := left.source[0];
      assert !Holds(e, file, bytes);
      assert !Resumable(Left(e, [kept], left.recorded, false, false), step, file, bytes);
    } else {
      KindestLoss<Secret>(file);
      var e := left.disk.(ancestors := DurablePrefix(left.disk.ancestors),
                          views := [if |DurablePrefix(left.disk.ancestors)| == left.disk.depth then left.disk.Visible() else map[]]);
      assert Survives(left.disk, e) && true in left.source;
      assert !Resumable(Left(e, [true], left.recorded, false, false), step, file, bytes);
    }
  }

  /** One run, stopped anywhere: at a gap's sync, and only there, the gap opens. */
  method CutRun(left: Left, step: SecretStep, file: string, bytes: Bytes, unique: string)
    returns (now: Left, r: Result<(), Stop>)
    requires Resumable(left, step, file, bytes) && IsUuid(unique)
    ensures Resumable(now, step, file, bytes)
    ensures now.gap <==> left.gap || (r.Err? && r.error.at == SyncHome)
    ensures now.removalGap <==> left.removalGap || (r.Err? && r.error.at == SyncRemoval)
    ensures !now.gap ==> NeverLost(now.disk, now.source, file, bytes)
  {
    var installer := new Installer(step, file, bytes, {SyncHome, SyncRemoval, OtherCall}, {}, left.disk, left.source, left.recorded);
    r := installer.Execute(unique);
    now := Left(installer.disk, installer.source, installer.recorded,
                left.gap || (r.Err? && r.error.at == SyncHome), left.removalGap || (r.Err? && r.error.at == SyncRemoval));
    if !now.gap { SyncedIsNeverLost(now.disk, now.source, file, bytes, now.RecordedPhase()); }
  }

  /** A power loss closes both gaps, and leaves a resumable state if it is a safe one. */
  method LosePower(left: Left, step: SecretStep, file: string, bytes: Bytes, loss: Disk<Secret> -> Disk<Secret>, kept: nat)
    returns (next: Left)
    requires Resumable(left, step, file, bytes) && IsPowerLoss(loss, file)
    ensures LossIsSafe(left) ==> Resumable(next, step, file, bytes) && NeverLost(next.disk, next.source, file, bytes)
    ensures !next.gap && !next.removalGap
  {
    var presence := left.source[kept % |left.source|];
    next := Left(loss(left.disk), [presence], left.recorded, false, false);
    assert presence in left.source;
    if LossIsSafe(left) {
      LossKeepsEstablished(left.disk, next.disk, left.source, presence, file, bytes, left.RecordedPhase());
      SyncedIsNeverLost(next.disk, next.source, file, bytes, next.RecordedPhase());
    }
  }

  /** A run that cannot stop, if the generated name is not yet taken. */
  method LastRun(left: Left, step: SecretStep, file: string, bytes: Bytes, unique: string) returns (after: Left, ok: bool)
    requires Resumable(left, step, file, bytes) && IsUuid(unique)
    ensures left.disk.views != [] && (ok <==> TempName(file, unique) !in left.disk.Visible())
    ensures ok ==> after.recorded == Some(Phase(step, Committed)) && Holds(after.disk, file, bytes)
    ensures ok ==> after.source != [] && !after.source[|after.source| - 1]
    ensures ok ==> (Durable(after.disk, file, Secret(bytes, true)) <==> !left.gap)
    ensures ok ==> (after.source == [false] <==> !left.removalGap)
  {
    after, ok := left, TempName(file, unique) !in left.disk.Visible();
    if ok {
      var installer := new Installer(step, file, bytes, {}, {}, left.disk, left.source, left.recorded);
      var r := installer.Execute(unique);
      after := Left(installer.disk, installer.source, installer.recorded, left.gap, left.removalGap);
    }
  }

  /** What happens after a run: nothing but a restart, or a power loss of some kind. */
  datatype Aftermath = Restart | Loss(disk: Disk<Secret> -> Disk<Secret>, source: nat)

  /** A gap opens where a run stops at its sync, and closes with a power loss. */
  ghost predicate GapsFit(before: Left, after: Left, stop: Result<(), Stop>, lost: bool) {
    && (after.gap <==> !lost && (before.gap || (stop.Err? && stop.error.at == SyncHome)))
    && (after.removalGap <==> !lost && (before.removalGap || (stop.Err? && stop.error.at == SyncRemoval)))
  }

  /**
    Any number of runs stopped anywhere, killed or by failing calls, with power lost after any of
    them, and then one that cannot stop. If every power loss came at a safe point, it commits with
    the source unseen and the destination the secret. The secret is then durable exactly if no run
    since the last power loss stopped at the sync of the home, after making the first directory in
    it, and the source is gone for good exactly if none stopped at the sync of its removal.
   */
  method Life(step: SecretStep, file: string, bytes: Bytes, start: Disk<Secret>, uniques: seq<string>, aftermaths: seq<Aftermath>, last: string)
    returns (states: seq<Left>, stops: seq<Result<(), Stop>>, safe: bool, after: Left, ok: bool)
    requires Good(start, file) && HomeSynced(start.ancestors)
    requires |uniques| == |aftermaths| && IsUuid(last) && forall k | 0 <= k < |uniques| :: IsUuid(uniques[k])
    requires forall k | 0 <= k < |aftermaths| && aftermaths[k].Loss? :: IsPowerLoss(aftermaths[k].disk, file)
    ensures |states| == |stops| + 1 <= |uniques| + 1 && states[0] == Left(start, [true], None, false, false)
    ensures forall k | 0 <= k < |stops| :: GapsFit(states[k], states[k + 1], stops[k], aftermaths[k].Loss?)
    ensures safe ==> |stops| == |uniques| && forall k | 0 <= k < |states| :: Resumable(states[k], step, file, bytes)
    // the generated name is not yet taken
    ensures var before := states[|states| - 1];
            && (safe && before.disk.views != [] && TempName(file, last) !in before.disk.Visible() ==> ok)
            && (ok ==> safe && after.recorded == Some(Phase(step, Committed)) && Holds(after.disk, file, bytes))
            && (ok ==> after.source != [] && !after.source[|after.source| - 1])
            && (ok ==> (Durable(after.disk, file, Secret(bytes, true)) <==> !before.gap))
            && (ok ==> (after.source == [false] <==> !before.removalGap))
  {
    var state := Left(start, [true], None, false, false);
    assert Resumable(state, step, file, bytes);
    hide Resumable, Holds, LossIsSafe, IsPowerLoss;
    states, stops, safe := [state], [], true;
    while safe && |stops| < |uniques|
      invariant |states| == |stops| + 1 <= |uniques| + 1 && states[0] == Left(start, [true], None, false, false)
      invariant state == states[|states| - 1]
      invariant forall k | 0 <= k < |stops| :: GapsFit(states[k], states[k + 1], stops[k], aftermaths[k].Loss?)
      invariant safe ==> forall k | 0 <= k < |states| :: Resumable(states[k], step, file, bytes)
      decreases |uniques| - |stops|
    {
      var i := |stops|;
      var now, r := CutRun(state, step, file, bytes, uniques[i]);
      var next := now;
      if aftermaths[i].Loss? {
        safe := LossIsSafe(now);
        next := LosePower(now, step, file, bytes, aftermaths[i].disk, aftermaths[i].source);
      }
      assert GapsFit(state, next, r, aftermaths[i].Loss?);
      state := next;
      states, stops := states + [state], stops + [r];
    }
    after, ok := state, false;
    if safe {
      assert Resumable(states[|states| - 1], step, file, bytes);
      after, ok := LastRun(state, step, file, bytes, last);
    }
  }

  /**
    The losing history: a first run is killed between making a directory in the home and syncing
    the home, the next one completes, and then the power is lost. The source is gone, and so is
    the secret.
   */
  method KilledRunLosesSecret(bytes: Bytes, unique: string)
    returns (first: Result<(), Stop>, second: Result<(), Stop>, disk: Disk<Secret>, source: seq<bool>)
    requires IsUuid(unique)
    ensures first.Err? && first.error.at == SyncHome && second.Ok?
    ensures source == [false] && Holds(disk, "key", bytes)
    ensures exists e :: Survives(disk, e) && Current(e, "key") != Some(Whole(Secret(bytes, true)))
  {
    var step := SecretStep("install-key", "key", ".ssh/key");
    var start := Disk(1, [], [map[]], map[]);
    var one := new Installer(step, "key", bytes, {}, {SyncHome}, start, [true], None);
    first := one.Execute(unique);
    var two := new Installer(step, "key", bytes, {}, {}, one.disk, one.source, one.recorded);
    second := two.Execute(unique);
    disk, source := two.disk, two.source;
    HoldsDurably(disk, "key", bytes);
    InstalledSurvivesExactly(disk, "key", bytes);
  }

  /**
    No such loss below the first directory: whichever directories earlier runs left unsynced, the
    secret of a run that cannot stop is durable exactly if the first one's name is.
   */
  method NestedDirectoriesAreRepaired(step: SecretStep, file: string, bytes: Bytes, start: Disk<Secret>, unique: string)
    returns (r: Result<(), Stop>, disk: Disk<Secret>)
    requires Good(start, file) && IsUuid(unique) && TempName(file, unique) !in start.Visible()
    ensures r.Ok? && (Durable(disk, file, Secret(bytes, true)) <==> HomeSynced(start.ancestors))
  {
    var installer := new Installer(step, file, bytes, {}, {}, start, [true], None);
    r := installer.Execute(unique);
    disk := installer.disk;
    HoldsDurably(disk, file, bytes);
  }

  /**
    The same for the source: from the same fresh start, a run is killed between removing the source
    and syncing its directory, the next one completes, and a power loss can bring the source back.
   */
  method KilledRemovalReturnsSource(bytes: Bytes, unique: string)
    returns (first: Result<(), Stop>, second: Result<(), Stop>, after: Left)
    requires IsUuid(unique)
    ensures first.Err? && first.error.at == SyncRemoval && second.Ok?
    ensures after.RecordedPhase() == Some(Committed) && after.source == [true, false]
    ensures Resumable(after, SecretStep("install-key", "key", ".ssh/key"), "key", bytes) && !LossIsSafe(after)
  {
    TempNames("key", unique);
    var step := SecretStep("install-key", "key", ".ssh/key");
    var one := new Installer(step, "key", bytes, {}, {SyncRemoval}, Disk(1, [], [map[]], map[]), [true], None);
    first := one.Execute(unique);
    var two := new Installer(step, "key", bytes, {}, {}, one.disk, one.source, one.recorded);
    second := two.Execute(unique);
    after := Left(two.disk, two.source, two.recorded, false, true);
  }
}
