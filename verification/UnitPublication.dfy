/**
  Transactional publication of prompt-job units: previous units are moved to a backup, new ones
  published, timers and registry brought in line, and everything undone if any of that fails.

  Any operation may fail. A failed timer command may leave its timer in any state.
 */
module UnitPublication {
  import opened Common

  /** What a path in the unit directory holds: a regular file, or a link or directory. */
  datatype Node = Regular(text: string) | Irregular

  type Units = map<string, Node>

  datatype Timer = Timer(enabled: bool, active: bool)

  type Timers = map<string, Timer>

  function TimerOf(timers: Timers, name: string): Timer {
    if name in timers then timers[name] else Timer(false, false)
  }

  datatype Registry = Registry(enabled: bool, timerNames: seq<string>, unitNames: set<string>)

  /** An installation or, without a new registry, a removal. */
  datatype Change = Change(files: map<string, string>, previous: Option<Registry>, next: Option<Registry>) {
    function PreviousUnits(): set<string> { if previous.Some? then previous.value.unitNames else {} }

    function PreviousTimers(): seq<string> { if previous.Some? then previous.value.timerNames else [] }

    function NewTimers(): seq<string> { if next.Some? then next.value.timerNames else [] }

    function Affected(): set<string> { PreviousUnits() + files.Keys }

    /** Registered timers that the change does away with. */
    predicate IsStale(name: string) { name in PreviousTimers() && name !in NewTimers() }
  }

  /** The operations that can fail; `CleanRegistry` removes the registry's temporary directory. */
  datatype Operation =
    | Prepare | Inspect | Rename | Remove | Disable | Enable | CheckTimer | Reload | WriteRegistry | CleanRegistry | CleanUp

  /**
    What a reader of a failed publication cannot see: whether it failed in the registry's clean-up,
    after the new registry was in place, and whether the rollback had anything to undo.
   */
  datatype Trace = Trace(late: bool, undone: bool)

  datatype Failure = OperationFailed | RecoveryNeeded | LeftoversRemain

  const PREFIX := "agent-boot-prompt-job-"

  predicate IsJobId(id: string) {
    && 1 <= |id| <= 48 && 'a' <= id[0] <= 'z'
    && forall i | 0 <= i < |id| :: 'a' <= id[i] <= 'z' || '0' <= id[i] <= '9' || id[i] == '-'
  }

  predicate IsJobFile(name: string, suffix: string) {
    && |PREFIX| + |suffix| <= |name| && name[..|PREFIX|] == PREFIX && name[|name| - |suffix|..] == suffix
    && IsJobId(name[|PREFIX|..|name| - |suffix|])
  }

  predicate IsUnitName(name: string) { IsJobFile(name, ".service") || IsJobFile(name, ".timer") }

  // ---- What a change promises ----

  /** The unit directory after the change. */
  function Published(units: Units, change: Change): Units {
    (units - change.Affected()) + map n | n in change.files :: Regular(change.files[n])
  }

  /** A timer after the change. */
  function NewTimer(was: Timer, change: Change, name: string): Timer {
    if name in change.NewTimers() then Timer(change.next.value.enabled, change.next.value.enabled)
    else if name in change.PreviousTimers() then Timer(false, false)
    else was
  }

  /** A timer after the change has been undone. */
  function RestoredTimer(was: Timer, change: Change, name: string): Timer {
    if name in change.PreviousTimers() then Timer(change.previous.value.enabled, change.previous.value.enabled)
    else if name in change.NewTimers() then Timer(false, false)
    else was
  }

  /** The timers agree with the registry before the change. */
  ghost predicate TimersMatch(timers: Timers, change: Change) {
    forall n | n in change.PreviousTimers() || n in change.NewTimers() ::
      TimerOf(timers, n) ==
        if n in change.PreviousTimers() then Timer(change.previous.value.enabled, change.previous.value.enabled)
        else Timer(false, false)
  }

  /** Undoing a change gives back every timer exactly when the timers agreed with the registry. */
  lemma RestoredExactly(timers: Timers, change: Change)
    ensures (forall n :: RestoredTimer(TimerOf(timers, n), change, n) == TimerOf(timers, n)) <==> TimersMatch(timers, change)
  {
    if forall n :: RestoredTimer(TimerOf(timers, n), change, n) == TimerOf(timers, n) {
      forall n | n in change.PreviousTimers() || n in change.NewTimers()
        ensures TimerOf(timers, n) == RestoredTimer(TimerOf(timers, n), change, n)
      {}
    }
  }

  ghost predicate AllNew(before: Timers, after: Timers, change: Change) {
    forall n :: TimerOf(after, n) == NewTimer(TimerOf(before, n), change, n)
  }

  ghost predicate AllRestored(before: Timers, after: Timers, change: Change) {
    forall n :: TimerOf(after, n) == RestoredTimer(TimerOf(before, n), change, n)
  }

  /** `after` is `before` with the named timers under the registry's policy. */
  ghost predicate Armed(before: Timers, after: Timers, names: seq<string>, policy: Option<Registry>) {
    forall n :: TimerOf(after, n) ==
                if n in names && policy.Some? then Timer(policy.value.enabled, policy.value.enabled) else TimerOf(before, n)
  }

  ghost predicate Unrelated(before: Timers, after: Timers, change: Change) {
    forall n | n !in change.PreviousTimers() && n !in change.NewTimers() :: TimerOf(after, n) == TimerOf(before, n)
  }

  /** Timers that have been restored are what they were exactly if they agreed with the registry. */
  lemma RestoredTimers(before: Timers, after: Timers, change: Change)
    requires AllRestored(before, after, change)
    ensures (forall n :: TimerOf(after, n) == TimerOf(before, n)) <==> TimersMatch(before, change)
  {
    RestoredExactly(before, change);
    if forall n :: TimerOf(after, n) == TimerOf(before, n) {
      assert forall n :: RestoredTimer(TimerOf(before, n), change, n) == TimerOf(before, n);
    }
  }

  lemma NothingUnrelated(timers: Timers, change: Change)
    ensures Unrelated(timers, timers, change)
  {}

  lemma FirstIsMember(names: seq<string>)
    ensures names == [] || names[0] in names
  {}

  /** The timers that a change does away with are off, all others as they were. */
  ghost predicate StaleOff(before: Timers, after: Timers, change: Change) {
    forall n :: TimerOf(after, n) == if change.IsStale(n) then Timer(false, false) else TimerOf(before, n)
  }

  predicate NamesAreUnits(change: Change) { forall n | n in change.Affected() :: IsUnitName(n) }

  /** Every registered unit that is there is a regular file. */
  ghost predicate RegisteredAreRegular(units: Units, change: Change) {
    forall n | n in change.PreviousUnits() && n in units :: units[n].Regular?
  }

  /** Only files that are not registered are in the way of a change that has registered units to move. */
  ghost predicate OnlyForeign(units: Units, change: Change) {
    && NamesAreUnits(change)
    && RegisteredAreRegular(units, change) && units.Keys * change.PreviousUnits() != {} && Obstructed(units, change)
  }

  /** All names are unit names and nothing is in the way. */
  ghost predicate Publishable(units: Units, change: Change) {
    NamesAreUnits(change) && !Obstructed(units, change)
  }

  /** No registered unit is there and nothing is to be published. */
  predicate NothingToMove(units: Units, change: Change) {
    change.files == map[] && change.PreviousUnits() !! units.Keys
  }

  /** What is in the way of a change: a path that is not a registered regular file. */
  ghost predicate Obstructed(units: Units, change: Change) {
    exists n | n in change.Affected() && n in units :: n !in change.PreviousUnits() || units[n].Irregular?
  }

  /** Every file there before is in place or in the backup, and nothing but registered files has moved. */
  ghost predicate OriginalsSafe(before: Units, units: Units, backup: Units, change: Change) {
    && (forall n | n in before && n in change.PreviousUnits() && before[n].Regular? ::
          (n in units && units[n] == before[n]) || (n in backup && backup[n] == before[n]))
    && (forall n | n in before && !(n in change.PreviousUnits() && before[n].Regular?) :: n in units && units[n] == before[n])
    && (forall n | n in units && n !in before :: n in change.files && units[n] == Regular(change.files[n]))
  }

  /** `moved` files are in the backup and `published` ones in place. */
  ghost predicate Midway(before: Units, units: Units, backup: Units, change: Change, moved: set<string>, published: set<string>) {
    && moved <= before.Keys && moved <= change.PreviousUnits() && published <= change.files.Keys
    && (forall n | n in moved :: before[n].Regular?)
    && published !! before.Keys - moved
    && units == (before - moved) + (map n | n in published :: Regular(change.files[n]))
    && backup == map n | n in moved :: before[n]
  }

  class PromptJobs {
    var units: Units
    var backup: Units
    var timers: Timers
    var registry: Option<Registry>
    /** The unit files as systemd last read them. */
    var loaded: Units
    /** Operations that may fail, and operations that do. */
    const mayFail: set<Operation>
    const fails: set<Operation>

    constructor (units: Units, timers: Timers, registry: Option<Registry>, mayFail: set<Operation>, fails: set<Operation>)
      ensures this.units == units && this.timers == timers && this.registry == registry && backup == map[] && loaded == units
      ensures this.mayFail == mayFail && this.fails == fails
    {
      this.units, this.timers, this.registry, backup, loaded := units, timers, registry, map[], units;
      this.mayFail, this.fails := mayFail, fails;
    }

    predicate Reliable(op: Operation) { op !in mayFail && op !in fails }

    /** Nothing fails but the given operations, which always do. */
    predicate Only(ops: set<Operation>) { mayFail == {} && fails == ops }

    method DaemonReload() returns (ok: bool)
      modifies this`loaded
      ensures (Reliable(Reload) ==> ok) && (Reload in fails ==> !ok)
      ensures ok ==> loaded == units
      ensures !ok ==> loaded == old(loaded)
    {
      ok := Works(Reload);
      if ok { loaded := units; }
    }

    method Works(op: Operation) returns (ok: bool)
      ensures (Reliable(op) ==> ok) && (op in fails ==> !ok)
    {
      var slips: bool := *;
      ok := op !in fails && !(slips && op in mayFail);
    }

    method AnyTimer() returns (t: Timer) {
      t := *;
    }

    // ---- Timers ----

    /** Disables a timer and checks its state: the command's own answer is not relied on. */
    method DisableAndAssert(name: string) returns (ok: bool)
      modifies this`timers
      ensures timers == old(timers)[name := TimerOf(timers, name)]
      ensures ok ==> TimerOf(timers, name) == Timer(false, false)
      ensures Reliable(Disable) ==> ok
    {
      var left := AnyTimer();
      var ran := Works(Disable);
      if Disable !in mayFail && Disable !in fails { left := Timer(false, false); }
      timers := timers[name := left];
      ok := ran && !left.enabled && !left.active;
    }

    /** Only ever done when systemd has read the unit files as they are. */
    method EnableAndRestart(name: string) returns (ok: bool)
      requires loaded == units
      modifies this`timers
      ensures timers == old(timers)[name := TimerOf(timers, name)]
      ensures ok ==> TimerOf(timers, name) == Timer(true, true)
      ensures Reliable(Enable) ==> ok
    {
      var enabled := Works(Enable);
      var left := AnyTimer();
      timers := timers[name := if enabled then left.(enabled := true) else left];
      if !enabled { return false; }
      var restarted := Works(Enable);
      left := AnyTimer();
      timers := timers[name := if restarted then Timer(true, true) else left];
      ok := restarted;
    }

    /** Brings the timers of the new registry into force. */
    method ArmNewTimers(change: Change) returns (ok: bool)
      requires loaded == units
      modifies this`timers
      ensures Unrelated(old(timers), timers, change)
      ensures ok ==> Armed(old(timers), timers, change.NewTimers(), change.next)
      ensures Reliable(Disable) && Reliable(Enable) && Reliable(CheckTimer) ==> ok
    {
      var names := change.NewTimers();
      for k := 0 to |names|
        invariant Armed(old(timers), timers, names[..k], change.next)
      {
        ghost var was := timers;
        assert names[..k + 1] == names[..k] + [names[k]];
        if change.next.value.enabled {
          ok := EnableAndRestart(names[k]);
          var ready := Works(CheckTimer);
          ok := ok && ready;
        } else {
          ok := DisableAndAssert(names[k]);
        }
        if !ok { return; }
      }
      assert names[..|names|] == names;
      ok := true;
    }

    /** Disables the timers that the change does away with. */
    method DisableStale(change: Change) returns (ok: bool)
      modifies this`timers
      ensures Unrelated(old(timers), timers, change)
      ensures ok ==> StaleOff(old(timers), timers, change)
      ensures Reliable(Disable) ==> ok
    {
      var names := change.PreviousTimers();
      for k := 0 to |names|
        invariant forall n :: TimerOf(timers, n) ==
                    if n in names[..k] && change.IsStale(n) then Timer(false, false) else TimerOf(old(timers), n)
      {
        assert names[..k + 1] == names[..k] + [names[k]];
        if change.IsStale(names[k]) {
          ok := DisableAndAssert(names[k]);
          if !ok { return; }
        }
      }
      assert names[..|names|] == names;
      ok := true;
    }

    /** The hook after publication: stale timers off, reload, new timers armed, registry replaced. */
    method AfterPublish(change: Change) returns (ok: bool, ghost late: bool)
      modifies this`timers, this`registry, this`loaded
      ensures loaded in {old(loaded), units} && (ok ==> loaded == units)
      ensures Unrelated(old(timers), timers, change)
      ensures ok ==> AllNew(old(timers), timers, change) && registry == change.next
      ensures !ok ==> registry == if late then change.next else old(registry)
      ensures late ==> !ok && change.next.Some? && AllNew(old(timers), timers, change) && !Reliable(CleanRegistry)
      ensures Only({}) ==> ok
      ensures Only({CleanRegistry}) ==> ok == change.next.None? && late == change.next.Some?
      ensures Only({Reload}) ==> !ok && StaleOff(old(timers), timers, change)
    {
      late := false;
      ok := DisableStale(change);
      if !ok { return; }
      ok := DaemonReload();
      if !ok { return; }
      ok := ArmNewTimers(change);
      if !ok { return; }
      ok := Works(WriteRegistry);
      if !ok { return; }
      registry := change.next;
      // the new registry is in place, but removing its temporary directory can still fail
      if change.next.Some? {
        ok := Works(CleanRegistry);
        late := !ok;
      }
    }

    /** The hook after a rollback: attempted timers off, reload, registered policy back in force. */
    method RestoreTimerPolicy(change: Change) returns (ok: bool)
      modifies this`timers, this`loaded
      ensures ok ==> loaded == units
      ensures Unrelated(old(timers), timers, change)
      ensures ok ==> AllRestored(old(timers), timers, change)
      ensures Reliable(Disable) && Reliable(Enable) && Reliable(Reload) ==> ok
    {
      var attempted := change.NewTimers();
      for k := 0 to |attempted|
        invariant forall n :: TimerOf(timers, n) == if n in attempted[..k] then Timer(false, false) else TimerOf(old(timers), n)
      {
        assert attempted[..k + 1] == attempted[..k] + [attempted[k]];
        ok := DisableAndAssert(attempted[k]);
        if !ok { return; }
      }
      assert attempted[..|attempted|] == attempted;
      ok := DaemonReload();
      if !ok { return; }
      ok := RestorePrevious(change);
    }

    method RestorePrevious(change: Change) returns (ok: bool)
      requires loaded == units
      modifies this`timers
      ensures Unrelated(old(timers), timers, change)
      ensures ok ==> Armed(old(timers), timers, change.PreviousTimers(), change.previous)
      ensures Reliable(Disable) && Reliable(Enable) ==> ok
    {
      var names := change.PreviousTimers();
      for k := 0 to |names|
        invariant Armed(old(timers), timers, names[..k], change.previous)
      {
        assert names[..k + 1] == names[..k] + [names[k]];
        if change.previous.value.enabled {
          ok := EnableAndRestart(names[k]);
        } else {
          ok := DisableAndAssert(names[k]);
        }
        if !ok { return; }
      }
      assert names[..|names|] == names;
      ok := true;
    }

    // ---- Unit files ----

    /**
      Moves registered files out of the way; stops at anything that is not one. The registered
      names come first, so an unregistered file is met only when every registered one has moved.
     */
    method MoveAside(change: Change) returns (ok: bool, moved: set<string>)
      requires backup == map[]
      modifies this`units, this`backup
      ensures moved <= old(units).Keys && moved <= change.PreviousUnits() && forall n | n in moved :: old(units)[n].Regular?
      ensures units == old(units) - moved && backup == map n | n in moved :: old(units)[n]
      ensures ok ==> moved == old(units).Keys * change.Affected() && !Obstructed(old(units), change)
      ensures Reliable(Inspect) && Reliable(Rename) && !Obstructed(old(units), change) ==> ok
      ensures Reliable(Inspect) && Reliable(Rename) && RegisteredAreRegular(old(units), change) ==>
                moved == old(units).Keys * change.PreviousUnits()
    {
      moved := {};
      var todo := change.Affected();
      while todo != {}
        invariant todo <= change.Affected() && moved !! todo
        invariant moved <= old(units).Keys && moved <= change.PreviousUnits() && forall n | n in moved :: old(units)[n].Regular?
        invariant units == old(units) - moved && backup == map n | n in moved :: old(units)[n]
        invariant moved == old(units).Keys * (change.Affected() - todo)
      {
        var first := if todo * change.PreviousUnits() != {} then todo * change.PreviousUnits() else todo;
        var name :| name in first;
        todo := todo - {name};
        var seen := Works(Inspect);
        if !seen { return false, moved; }
        if name in units {
          if name !in change.PreviousUnits() || units[name].Irregular? { return false, moved; }
          var renamed := Works(Rename);
          if !renamed { return false, moved; }
          backup := backup[name := units[name]];
          units := units - {name};
          moved := moved + {name};
        }
      }
      ok := true;
    }

    /** Renames the staged files into the emptied places. */
    method PublishStaged(change: Change) returns (ok: bool, published: set<string>)
      modifies this`units
      ensures published <= change.files.Keys
      ensures units == old(units) + map n | n in published :: Regular(change.files[n])
      ensures ok ==> published == change.files.Keys
      ensures Reliable(Rename) ==> ok
    {
      published := {};
      var todo := change.files.Keys;
      while todo != {}
        invariant published == change.files.Keys - todo && todo <= change.files.Keys
        invariant units == old(units) + map n | n in published :: Regular(change.files[n])
      {
        var name :| name in todo;
        var renamed := Works(Rename);
        if !renamed { return false, published; }
        todo := todo - {name};
        units := units[name := Regular(change.files[name])];
        published := published + {name};
      }
      ok := true;
    }

    /** Takes published files away again; a removal that fails may or may not have happened. */
    method RemovePublished(published: set<string>) returns (complete: bool)
      modifies this`units
      ensures units.Keys <= old(units).Keys && forall n | n in units :: units[n] == old(units)[n]
      ensures old(units).Keys - published <= units.Keys
      ensures complete ==> units == old(units) - published
      ensures Reliable(Remove) ==> complete
    {
      complete := true;
      var todo := published;
      while todo != {}
        invariant todo <= published
        invariant units.Keys <= old(units).Keys && forall n | n in units :: units[n] == old(units)[n]
        invariant old(units).Keys - published <= units.Keys
        invariant complete ==> units == old(units) - (published - todo)
        invariant Reliable(Remove) ==> complete
      {
        var name :| name in todo;
        todo := todo - {name};
        var ok := Works(Remove);
        var gone: bool := *;
        if ok || gone { units := units - {name}; }
        if !ok { complete := false; }
      }
    }

    /** Moves the backed-up files back, over whatever is left in their places. */
    method MoveBack(moved: set<string>) returns (complete: bool)
      requires moved == backup.Keys
      modifies this`units, this`backup
      ensures backup.Keys <= moved && forall n | n in backup :: backup[n] == old(backup)[n]
      ensures forall n | n in moved && n !in backup :: n in units && units[n] == old(backup)[n]
      ensures units.Keys <= old(units).Keys + moved
      ensures forall n | n in old(units) && n !in moved :: n in units && units[n] == old(units)[n]
      ensures complete ==> units == old(units) + old(backup) && backup == map[]
      ensures Reliable(Rename) ==> complete
    {
      complete := true;
      var todo := moved;
      while todo != {}
        invariant todo <= moved
        invariant backup.Keys <= moved && forall n | n in backup :: backup[n] == old(backup)[n]
        invariant todo <= backup.Keys
        invariant forall n | n in moved && n !in backup :: n in units && units[n] == old(backup)[n]
        invariant units.Keys <= old(units).Keys + moved
        invariant forall n | n in old(units) && n !in moved :: n in units && units[n] == old(units)[n]
        invariant complete ==> backup.Keys == todo
        invariant Reliable(Rename) ==> complete
      {
        var name :| name in todo;
        todo := todo - {name};
        var ok := Works(Rename);
        if ok {
          units := units[name := backup[name]];
          backup := backup - {name};
        } else {
          complete := false;
        }
      }
    }

    /** Undoes what was moved and published. */
    method UndoUnits(change: Change, moved: set<string>, published: set<string>, ghost before: Units)
      returns (cleaned: bool, restored: bool)
      requires Midway(before, units, backup, change, moved, published)
      modifies this`units, this`backup
      ensures OriginalsSafe(before, units, backup, change)
      ensures cleaned && restored ==> units == before && backup == map[]
      ensures Reliable(Remove) && Reliable(Rename) ==> cleaned && restored
    {
      cleaned := RemovePublished(published);
      assert cleaned ==> units == before - moved;
      restored := MoveBack(moved);
    }

    /** Undoes the publication, then restores the timer policy if anything was undone. */
    method Rollback(change: Change, moved: set<string>, published: set<string>, ghost before: Units, ghost was: Timers)
      returns (complete: bool)
      requires Midway(before, units, backup, change, moved, published)
      requires Unrelated(was, timers, change)
      modifies this`units, this`backup, this`timers, this`loaded
      ensures complete ==> loaded == if moved == {} && published == {} then old(loaded) else units
      ensures OriginalsSafe(before, units, backup, change) && Unrelated(was, timers, change)
      ensures complete ==> units == before && backup == map[]
      ensures complete ==> if moved == {} && published == {} then timers == old(timers) else AllRestored(was, timers, change)
      ensures moved == {} && published == {} ==> timers == old(timers)
      ensures Reliable(Remove) && Reliable(Rename) && Reliable(Disable) && Reliable(Enable) && Reliable(Reload) ==> complete
      ensures Reliable(Remove) && Reliable(Rename) && moved == {} && published == {} ==> complete
    {
      hide OriginalsSafe, Midway;
      var cleaned, restored := UndoUnits(change, moved, published, before);
      complete := cleaned && restored;
      if restored && (moved != {} || published != {}) {
        var hooked := RestoreTimerPolicy(change);
        complete := complete && hooked;
      }
    }

    /** Moves the registered files aside and publishes the new ones. */
    method MoveAndPublish(change: Change) returns (ok: bool, moved: set<string>, published: set<string>)
      requires backup == map[]
      modifies this`units, this`backup
      ensures Midway(old(units), units, backup, change, moved, published)
      ensures ok ==> units == Published(old(units), change) && !Obstructed(old(units), change)
      ensures ok ==> (moved == {} && published == {} <==> NothingToMove(old(units), change))
      ensures Reliable(Inspect) && Reliable(Rename) && !Obstructed(old(units), change) ==> ok
      ensures Reliable(Inspect) && Reliable(Rename) && RegisteredAreRegular(old(units), change) ==>
                moved == old(units).Keys * change.PreviousUnits()
      ensures !ok && Reliable(Rename) ==> published == {}
    {
      published := {};
      ok, moved := MoveAside(change);
      if ok {
        ok, published := PublishStaged(change);
      }
    }

    /** Publication proper, once everything is staged: it is carried through or undone. */
    method PublishStagedOrUndo(change: Change) returns (r: Result<(), Failure>, ghost trace: Trace)
      requires backup == map[]
      modifies this`units, this`backup, this`timers, this`registry, this`loaded
      ensures r.Ok? ==> !Obstructed(old(units), change) && units == Published(old(units), change) && loaded == units
      ensures r.Ok? ==> AllNew(old(timers), timers, change) && registry == change.next
      ensures r.Err? ==> r.error == OperationFailed || r.error == RecoveryNeeded
      ensures r == Err(OperationFailed) ==> units == old(units) && backup == map[]
      ensures r == Err(OperationFailed) && old(loaded == units) ==> loaded == units
      ensures r == Err(OperationFailed) && trace.undone ==> AllRestored(old(timers), timers, change)
      ensures r == Err(OperationFailed) && !trace.undone && !NothingToMove(old(units), change) ==> timers == old(timers)
      ensures r.Err? ==> registry == if trace.late then change.next else old(registry)
      ensures trace.late ==> change.next.Some? && r.Err? && !Reliable(CleanRegistry)
      ensures r == Err(RecoveryNeeded) ==> OriginalsSafe(old(units), units, backup, change)
      ensures Unrelated(old(timers), timers, change)
      ensures Only({}) ==> (r.Ok? <==> !Obstructed(old(units), change)) && r != Err(RecoveryNeeded)
      ensures Only({}) && Obstructed(old(units), change) && RegisteredAreRegular(old(units), change) ==>
                (trace.undone <==> old(units).Keys * change.PreviousUnits() != {})
      ensures Only({CleanRegistry}) && !Obstructed(old(units), change) && change.next.Some? ==> r == Err(OperationFailed) && trace.late
      ensures Only({Reload}) && !Obstructed(old(units), change) && NothingToMove(old(units), change) ==>
                r == Err(OperationFailed) && !trace.undone && StaleOff(old(timers), timers, change)
    {
      hide OriginalsSafe, AllNew, AllRestored, Unrelated, Midway, Published, Obstructed, NothingToMove, StaleOff, RegisteredAreRegular;
      NothingUnrelated(timers, change);
      trace := Trace(false, false);
      var ok, moved, published := MoveAndPublish(change);
      ghost var late := false;
      if ok { ok, late := AfterPublish(change); }
      if ok { return Ok(()), trace; }
      trace := Trace(late, moved != {} || published != {});
      var complete := Rollback(change, moved, published, old(units), old(timers));
      return Err(if complete then OperationFailed else RecoveryNeeded), trace;
    }

    /**
      The whole publication. Success puts exactly the change into force. A failure that needs no
      recovery gives back the units; the registry too unless it came late; and the timers, if
      there was something to undo, exactly if they agreed with the registry before. When only the
      unregistered is in the way, there was something to undo exactly if a registered unit is there.
     */
    method Publish(change: Change) returns (r: Result<(), Failure>, ghost trace: Trace)
      requires backup == map[]
      modifies this
      ensures r.Ok? || r.error == LeftoversRemain ==> Publishable(old(units), change)
      ensures r.Ok? || r.error == LeftoversRemain ==>
                units == Published(old(units), change) && AllNew(old(timers), timers, change) && registry == change.next
      ensures r.Ok? ==> backup == map[]
      ensures r.Ok? || r.error == LeftoversRemain ==> loaded == units
      ensures r == Err(OperationFailed) ==> units == old(units) && backup == map[]
      ensures r == Err(OperationFailed) && old(loaded == units) ==> loaded == units
      ensures r == Err(OperationFailed) && trace.undone ==>
                AllRestored(old(timers), timers, change)
                && ((forall n :: TimerOf(timers, n) == TimerOf(old(timers), n)) <==> TimersMatch(old(timers), change))
      ensures r == Err(OperationFailed) && !trace.undone && !NothingToMove(old(units), change) ==> timers == old(timers)
      ensures r.Err? && r.error != LeftoversRemain ==> registry == if trace.late then change.next else old(registry)
      ensures trace.late ==> change.next.Some? && r.Err? && r.error != LeftoversRemain && !Reliable(CleanRegistry)
      ensures r == Err(RecoveryNeeded) ==> OriginalsSafe(old(units), units, backup, change)
      ensures Unrelated(old(timers), timers, change)
      ensures Only({}) ==> (r.Ok? <==> Publishable(old(units), change)) && (r.Ok? || r == Err(OperationFailed))
      ensures Only({}) && NamesAreUnits(change) && Obstructed(old(units), change) && RegisteredAreRegular(old(units), change) ==>
                r == Err(OperationFailed) && (trace.undone <==> old(units).Keys * change.PreviousUnits() != {})
      ensures Only({CleanRegistry}) && Publishable(old(units), change) && change.next.Some? ==> r == Err(OperationFailed) && trace.late
      ensures Only({Reload}) && Publishable(old(units), change) && NothingToMove(old(units), change) ==>
                r == Err(OperationFailed) && !trace.undone && StaleOff(old(timers), timers, change)
    {
      hide OriginalsSafe, AllNew, AllRestored, Unrelated, Published, Obstructed, NothingToMove, NamesAreUnits, StaleOff, TimersMatch,
        RegisteredAreRegular;
      NothingUnrelated(timers, change);
      trace := Trace(false, false);
      var made := Works(Prepare);
      if !made || !NamesAreUnits(change) { return Err(OperationFailed), trace; }
      var staged := Works(Prepare);
      if !staged { return Err(OperationFailed), trace; }
      r, trace := PublishStagedOrUndo(change);
      if r.Err? {
        if r.error == OperationFailed && trace.undone { RestoredTimers(old(timers), timers, change); }
        return;
      }
      var removed := Works(CleanUp);
      if !removed { return Err(LeftoversRemain), trace; }
      backup := map[];
    }

    // ---- The two commands ----

    /** The registered units are there and loaded, and the registered timers follow the registry's policy. */
    ghost predicate Registered()
      reads this
    {
      && loaded == units
      && (registry.Some? ==>
        && registry.value.unitNames <= units.Keys
        && (forall n | n in registry.value.unitNames :: units[n].Regular?)
        && (forall n | n in registry.value.timerNames :: n in registry.value.unitNames)
        && (forall n | n in registry.value.timerNames :: TimerOf(timers, n) == Timer(registry.value.enabled, registry.value.enabled)))
    }

    /** All or nothing, unless recovery is asked for; a late failure keeps the new registry. */
    ghost predicate AllOrNothing(change: Change, r: Result<(), Failure>, trace: Trace, units0: Units, timers0: Timers, registry0: Option<Registry>)
      reads this
    {
      && (r.Ok? || r.error == LeftoversRemain ==>
            units == Published(units0, change) && AllNew(timers0, timers, change) && registry == change.next)
      && (r == Err(OperationFailed) ==> units == units0 && registry == if trace.late then change.next else registry0)
      && (r == Err(OperationFailed) && trace.undone ==> AllRestored(timers0, timers, change))
      && (r == Err(OperationFailed) && trace.undone ==>
            ((forall n :: TimerOf(timers, n) == TimerOf(timers0, n)) <==> TimersMatch(timers0, change)))
      && (r == Err(OperationFailed) && !trace.undone && !NothingToMove(units0, change) ==> timers == timers0)
      && (r == Err(RecoveryNeeded) ==> OriginalsSafe(units0, units, backup, change))
      && (trace.late ==> change.next.Some? && !Reliable(CleanRegistry))
      && Unrelated(timers0, timers, change)
    }

    /** Publishes a change of the registered state. */
    method Apply(change: Change) returns (r: Result<(), Failure>, ghost trace: Trace)
      requires backup == map[] && change.previous == registry
      requires forall n | n in change.NewTimers() :: n in change.files
      requires change.next.Some? ==> change.next.value.unitNames == change.files.Keys
      modifies this
      ensures AllOrNothing(change, r, trace, old(units), old(timers), old(registry))
      ensures old(Registered()) && r != Err(RecoveryNeeded) && !trace.late ==> Registered()
      ensures old(Registered()) && r == Err(OperationFailed) && TimersMatch(old(timers), change) ==>
                forall n :: TimerOf(timers, n) == TimerOf(old(timers), n)
      ensures Only({}) && OnlyForeign(old(units), change) ==> r == Err(OperationFailed) && trace.undone
      ensures Only({}) ==> (r.Ok? <==> Publishable(old(units), change))
      ensures Only({CleanRegistry}) && Publishable(old(units), change) && change.next.Some? ==> r == Err(OperationFailed) && trace.late
      ensures Only({Reload}) && Publishable(old(units), change) && NothingToMove(old(units), change) ==>
                r == Err(OperationFailed) && StaleOff(old(timers), timers, change)
    {
      hide OriginalsSafe, IsUnitName;
      r, trace := Publish(change);
      FirstIsMember(change.PreviousTimers());
      FirstIsMember(change.NewTimers());
    }

    /** Installs the rendered units, enabling or disabling their timers. */
    method InstallPromptJobs(files: map<string, string>, timerNames: seq<string>, enabled: bool)
      returns (r: Result<(), Failure>, ghost change: Change, ghost trace: Trace)
      requires backup == map[] && forall n | n in timerNames :: n in files
      modifies this
      ensures change == Change(files, old(registry), Some(Registry(enabled, timerNames, files.Keys)))
      ensures AllOrNothing(change, r, trace, old(units), old(timers), old(registry))
      ensures old(Registered()) && r != Err(RecoveryNeeded) && !trace.late ==> Registered()
      ensures old(Registered()) && r == Err(OperationFailed) && TimersMatch(old(timers), change) ==>
                forall n :: TimerOf(timers, n) == TimerOf(old(timers), n)
      ensures Only({}) && OnlyForeign(old(units), change) ==> r == Err(OperationFailed) && trace.undone
      ensures Only({}) ==> (r.Ok? <==> Publishable(old(units), change))
      ensures Only({CleanRegistry}) && Publishable(old(units), change) ==> r == Err(OperationFailed) && trace.late
    {
      hide OriginalsSafe, AllNew, Unrelated, IsUnitName, Obstructed, NothingToMove, Published;
      var next := Change(files, registry, Some(Registry(enabled, timerNames, files.Keys)));
      change, trace := next, Trace(false, false);
      NothingUnrelated(timers, change);
      // manifest, verification of the staged units, registry
      var ready := Works(Prepare);
      if !ready { return Err(OperationFailed), change, trace; }
      r, trace := Apply(next);
    }

    /** Removes whatever is registered. No failure short of recovery changes the registry. */
    method UninstallPromptJobs() returns (r: Result<(), Failure>, ghost change: Change, ghost trace: Trace)
      requires backup == map[]
      modifies this
      ensures change == Change(map[], old(registry), None)
      ensures AllOrNothing(change, r, trace, old(units), old(timers), old(registry))
      ensures r == Err(OperationFailed) ==> registry == old(registry)
      ensures old(Registered()) && r != Err(RecoveryNeeded) ==> Registered()
      ensures old(Registered()) && r == Err(OperationFailed) && TimersMatch(old(timers), change) ==>
                forall n :: TimerOf(timers, n) == TimerOf(old(timers), n)
      ensures Only({Reload}) && old(registry).Some? && Publishable(old(units), change) && NothingToMove(old(units), change) ==>
                r == Err(OperationFailed) && StaleOff(old(timers), timers, change)
    {
      var next := Change(map[], registry, None);
      change, trace := next, Trace(false, false);
      var ready := Works(Prepare);
      if !ready { return Err(OperationFailed), change, trace; }
      if registry == None {
        assert Published(units, next) == units;
        return Ok(()), change, trace;
      }
      r, trace := Apply(next);
    }
  }

  // ---- Where it falls short ----

  function TimerName(id: string): string { PREFIX + id + ".timer" }

  lemma TimerNames(id: string)
    requires IsJobId(id)
    ensures IsUnitName(TimerName(id)) && TimerName(id)[|PREFIX|..|PREFIX| + |id|] == id && |TimerName(id)| == |PREFIX| + |id| + 6
  {
    var name := TimerName(id);
    assert name[..|PREFIX|] == PREFIX && name[|name| - 6..] == ".timer" && name[|PREFIX|..|name| - 6] == id;
  }

  /** Only the clean-up of the registry's temporary directory fails: no unit, but the new registry. */
  method LateFailureKeepsRegistry() returns (jobs: PromptJobs, r: Result<(), Failure>)
    ensures r == Err(OperationFailed) && jobs.units == map[] && jobs.registry.Some? && !jobs.Registered()
  {
    hide IsUnitName;
    TimerNames("a");
    var timer := TimerName("a");
    jobs := new PromptJobs(map[], map[], None, {}, {CleanRegistry});
    ghost var change, trace;
    r, change, trace := jobs.InstallPromptJobs(map[timer := "[Timer]"], [timer], true);
    assert timer in jobs.registry.value.unitNames;
  }

  /** Only the reload fails, and no registered unit is there: a removal fails but leaves the timer off. */
  method MissingUnitsKeepTimerChanges() returns (jobs: PromptJobs, r: Result<(), Failure>)
    ensures r == Err(OperationFailed) && jobs.registry.Some?
    ensures exists timer | timer in jobs.registry.value.timerNames :: TimerOf(jobs.timers, timer) != Timer(true, true)
    ensures jobs.registry.value.enabled
  {
    hide IsUnitName;
    TimerNames("a");
    var timer := TimerName("a");
    var registry := Registry(true, [timer], {timer});
    jobs := new PromptJobs(map[], map[timer := Timer(true, true)], Some(registry), {}, {Reload});
    ghost var change, trace;
    r, change, trace := jobs.UninstallPromptJobs();
    assert change.IsStale(timer);
    assert timer in jobs.registry.value.timerNames;
  }

  function TwoUnits(own: string, foreign: string): Units { map[own := Regular("[Timer]"), foreign := Regular("[Timer]")] }

  /** One account, which has the timer `own`, installs `own` and `foreign`. */
  function TwoTimers(own: string, foreign: string): Change {
    var files := map[own := "[Timer]", foreign := "[Timer]"];
    Change(files, Some(Registry(true, [own], {own})), Some(Registry(true, [own, foreign], files.Keys)))
  }

  lemma ForeignIsInTheWay(a: string, b: string)
    requires IsJobId(a) && IsJobId(b) && a != b
    ensures TimerName(a) != TimerName(b)
    ensures OnlyForeign(TwoUnits(TimerName(a), TimerName(b)), TwoTimers(TimerName(a), TimerName(b)))
  {
    hide IsUnitName;
    TimerNames(a);
    TimerNames(b);
    var own, foreign := TimerName(a), TimerName(b);
    hide TimerName;
    assert own != foreign;
    var units, change := TwoUnits(own, foreign), TwoTimers(own, foreign);
    assert own in units.Keys * change.PreviousUnits();
    assert foreign in change.Affected() && foreign in units && foreign !in change.PreviousUnits();
  }

  /**
    No call fails: an installation that only unregistered files are in the way of, and that names
    a timer of another account, is refused and turns that timer off.
   */
  method RefusalDisablesForeignTimer(jobs: PromptJobs, files: map<string, string>, timerNames: seq<string>, enabled: bool, ghost foreign: string)
    returns (r: Result<(), Failure>)
    requires jobs.Only({}) && jobs.backup == map[] && forall n | n in timerNames :: n in files
    requires OnlyForeign(jobs.units, Change(files, jobs.registry, Some(Registry(enabled, timerNames, files.Keys))))
    requires foreign in timerNames && (jobs.registry.Some? ==> foreign !in jobs.registry.value.timerNames)
    modifies jobs
    ensures r == Err(OperationFailed) && jobs.units == old(jobs.units) && jobs.registry == old(jobs.registry)
    ensures TimerOf(jobs.timers, foreign) == Timer(false, false)
  {
    hide OnlyForeign, Published, Obstructed, RegisteredAreRegular, NothingToMove, TimersMatch, OriginalsSafe;
    ghost var change, trace;
    r, change, trace := jobs.InstallPromptJobs(files, timerNames, enabled);
    assert foreign in change.NewTimers() && foreign !in change.PreviousTimers();
  }

  /** One account has job a installed and installs it together with job b of another account, which runs. */
  method TwoAccounts(a: string, b: string) returns (jobs: PromptJobs, r: Result<(), Failure>, before: Timer)
    requires IsJobId(a) && IsJobId(b) && a != b
    ensures r == Err(OperationFailed) && jobs.registry == Some(Registry(true, [TimerName(a)], {TimerName(a)}))
    ensures TimerName(b) in jobs.units && before == Timer(true, true) && TimerOf(jobs.timers, TimerName(b)) == Timer(false, false)
  {
    ForeignIsInTheWay(a, b);
    hide TimerName, OnlyForeign;
    var own, foreign := TimerName(a), TimerName(b);
    var change := TwoTimers(own, foreign);
    var timers := map[own := Timer(true, true), foreign := Timer(true, true)];
    jobs := new PromptJobs(TwoUnits(own, foreign), timers, change.previous, {}, {});
    before := TimerOf(jobs.timers, foreign);
    assert [own, foreign][1] == foreign;
    r := RefusalDisablesForeignTimer(jobs, change.files, [own, foreign], true, foreign);
  }
}
