/**
  How a checkpoint update reaches the disk: temporary file, file sync, rename, directory sync.

  The file system keeps what is visible apart from what survives a power loss. After a power loss
  each name of the state directory independently shows any entry it has had since the directory
  was last synced, an unsynced file holds anything, and the directory itself is gone if one of the
  names leading to it was never synced.
 */
module DurableStore {
  import opened Common

  type Inode = nat

  /** The bytes of a file: one complete serialized document, or anything else. */
  datatype Text<S> = Whole(doc: S) | Torn

  datatype File<S> = File(text: Text<S>, synced: bool)

  type Names = map<string, Inode>

  /**
    `ancestors` tells, for every existing name on the way to the state directory, whether it is
    durable; the directory exists when all `depth` of them do. `views` lists the directory's
    contents since its last sync, the visible one last.
   */
  datatype Disk<S> = Disk(depth: nat, ancestors: seq<bool>, views: seq<Names>, files: map<Inode, File<S>>) {
    predicate Ok() {
      && |ancestors| <= depth && views != []
      && (forall v | v in views :: forall n | n in v :: v[n] in files)
      && (|ancestors| < depth ==> views == [map[]])
    }

    function Visible(): Names
      requires views != []
    {
      views[|views| - 1]
    }

    predicate Exists() { |ancestors| == depth }
  }

  /** What the checkpoint path holds when the directory shows `v`. */
  function At<S>(d: Disk<S>, v: Names, path: string): Option<Text<S>> {
    if path in v && v[path] in d.files then Some(d.files[v[path]].text) else None
  }

  /** What a reader sees now. */
  function Current<S>(d: Disk<S>, path: string): Option<Text<S>>
    requires d.Ok()
  {
    At(d, d.Visible(), path)
  }

  /** The states a power loss can leave behind. */
  ghost predicate Survives<S>(d: Disk<S>, e: Disk<S>)
    requires d.Ok()
  {
    && e.Ok() && e.depth == d.depth && |e.views| == 1
    // the names leading to the directory are cut at one that was not durable
    && |e.ancestors| <= |d.ancestors| && (forall a | a in e.ancestors :: a)
    && (|e.ancestors| < |d.ancestors| ==> !d.ancestors[|e.ancestors|])
    && (e.Exists() ==> forall n :: HadEntry(d, e, n))
    && (forall i | i in e.files :: i in d.files && (d.files[i].synced ==> e.files[i] == d.files[i]))
  }

  predicate SameEntry(v: Names, w: Names, n: string) { (n in v <==> n in w) && (n in v ==> v[n] == w[n]) }

  /** The entry of `n` in `e` is one it had in `d` since the last sync. */
  ghost predicate HadEntry<S>(d: Disk<S>, e: Disk<S>, n: string)
    requires e.views != []
  {
    exists v | v in d.views :: SameEntry(v, e.Visible(), n)
  }

  ghost predicate Rooted<S>(d: Disk<S>) { d.Exists() && forall a | a in d.ancestors :: a }

  /** Something the checkpoint path may hold after a power loss now. */
  ghost predicate Shows<S>(d: Disk<S>, path: string, c: Option<Text<S>>) {
    || (exists v | v in d.views :: At(d, v, path) == c)
    || (c.None? && !Rooted(d))
  }

  /** Every file the checkpoint path has led to since the last directory sync is complete and synced. */
  ghost predicate PathWhole<S>(d: Disk<S>, path: string) {
    forall v | v in d.views && path in v && v[path] in d.files :: d.files[v[path]].synced && d.files[v[path]].text.Whole?
  }

  /** A power loss shows one of the recent views, or nothing while the directory is not durable. */
  lemma LossShowsAView<S>(d: Disk<S>, e: Disk<S>, path: string)
    requires d.Ok() && PathWhole(d, path) && Survives(d, e)
    ensures Shows(d, path, Current(e, path))
    ensures Current(e, path).Some? ==> Current(e, path).value.Whole?
  {
    if e.Exists() {
      assert HadEntry(d, e, path);
      var v :| v in d.views && SameEntry(v, e.Visible(), path);
      assert e.Visible() in e.views;
      if path in v { assert d.files[v[path]].synced; }
      assert At(d, v, path) == Current(e, path);
    } else {
      assert e.Visible() == map[];
      if |e.ancestors| < |d.ancestors| { assert d.ancestors[|e.ancestors|] in d.ancestors; }
    }
  }

  /** What the restarted device sees is settled: a second power loss can show nothing else. */
  lemma SurvivorIsSettled<S(!new)>(d: Disk<S>, e: Disk<S>, path: string)
    requires Good(d, path) && Survives(d, e)
    ensures Good(e, path) && forall c :: Shows(e, path, c) <==> c == Current(e, path)
  {
    LossShowsAView(d, e, path);
    assert e.views == [e.Visible()];
    if e.Exists() && path in e.Visible() {
      assert HadEntry(d, e, path);
      var v :| v in d.views && SameEntry(v, e.Visible(), path);
      assert e.Visible() in e.views;
      assert d.files[v[path]].synced;
    }
    if !e.Exists() { assert e.Visible() == map[]; }
  }

  /** A power loss can show only `doc` now. */
  ghost predicate Durable<S(!new)>(d: Disk<S>, path: string, doc: S) {
    Good(d, path) && forall c :: Shows(d, path, c) <==> c == Some(Whole(doc))
  }

  /** What a reader sees is among the outcomes. */
  lemma CurrentIsShown<S(!new)>(d: Disk<S>, path: string)
    requires d.Ok()
    ensures Shows(d, path, Current(d, path))
  {
    assert d.Visible() in d.views;
  }

  lemma DurableMeans<S(!new)>(d: Disk<S>, path: string, doc: S)
    requires Durable(d, path, doc)
    ensures Rooted(d) && Current(d, path) == Some(Whole(doc))
  {
    CurrentIsShown(d, path);
    assert !Shows(d, path, None);
  }

  /** A single synced view of a durable directory shows what it holds and nothing else. */
  lemma SyncedIsDurable<S(!new)>(d: Disk<S>, path: string, doc: S)
    requires Good(d, path) && Rooted(d) && |d.views| == 1 && Current(d, path) == Some(Whole(doc))
    ensures Durable(d, path, doc)
  {
    assert d.views == [d.Visible()];
    CurrentIsShown(d, path);
  }

  /** A choice of what a power loss leaves. */
  ghost predicate IsPowerLoss<S(!new)>(loss: Disk<S> -> Disk<S>, path: string) {
    forall d | Good(d, path) :: Survives(d, loss(d))
  }

  function DurablePrefix(flags: seq<bool>): (r: seq<bool>)
    ensures r <= flags && (forall a | a in r :: a) && (|r| < |flags| ==> !flags[|r|])
  {
    if flags == [] || !flags[0] then [] else [flags[0]] + DurablePrefix(flags[1..])
  }

  /** Losing nothing that the directory shows is one of the choices. */
  lemma KindestLoss<S(!new)>(path: string)
    ensures IsPowerLoss((d: Disk<S>) => var kept := DurablePrefix(d.ancestors);
                          d.(ancestors := kept,
                             views := [if |kept| == d.depth && d.views != [] then d.Visible() else map[]]), path)
  {
    forall d: Disk<S> | Good(d, path)
      ensures Survives(d, var kept := DurablePrefix(d.ancestors);
                          d.(ancestors := kept,
                             views := [if |kept| == d.depth && d.views != [] then d.Visible() else map[]]))
    {
      var kept := DurablePrefix(d.ancestors);
      var e := d.(ancestors := kept, views := [if |kept| == d.depth && d.views != [] then d.Visible() else map[]]);
      assert d.Visible() in d.views;
      if e.Exists() {
        forall n ensures HadEntry(d, e, n) { assert SameEntry(d.Visible(), e.Visible(), n); }
      }
    }
  }

  /** A synced document survives every power loss exactly if every name leading to it is durable. */
  lemma SyncedSurvivesExactly<S(!new)>(d: Disk<S>, path: string, doc: S)
    requires Good(d, path) && d.Exists() && |d.views| == 1 && Current(d, path) == Some(Whole(doc))
    ensures (forall e | Survives(d, e) :: Current(e, path) == Some(Whole(doc))) <==> Rooted(d)
  {
    if Rooted(d) {
      SyncedIsDurable(d, path, doc);
      forall e | Survives(d, e) ensures Current(e, path) == Some(Whole(doc)) { LossShowsAView(d, e, path); }
    } else {
      KindestLoss<S>(path);
      var e := d.(ancestors := DurablePrefix(d.ancestors), views := [map[]]);
      assert DurablePrefix(d.ancestors) != d.ancestors;
      assert Survives(d, e) && Current(e, path) == None;
    }
  }

  // ---- One call at a time ----

  ghost predicate Good<S>(d: Disk<S>, path: string) { d.Ok() && PathWhole(d, path) }

  /** No outcome of a power loss is possible in `e` that was not possible in `d`, except `extra`. */
  ghost predicate AddsOnly<S(!new)>(d: Disk<S>, e: Disk<S>, path: string, extra: Option<S>) {
    forall c | Shows(e, path, c) :: Shows(d, path, c) || (extra.Some? && c == Some(Whole(extra.value)))
  }

  /** The same for an update: `extra` is what the transition makes of the visible document. */
  ghost predicate UpdateAddsOnly<S(!new)>(d: Disk<S>, e: Disk<S>, path: string, transition: S -> Option<S>)
    requires d.Ok()
  {
    var c := Current(d, path);
    AddsOnly(d, e, path, if c.Some? && c.value.Whole? then transition(c.value.doc) else None)
  }

  function Push<S>(d: Disk<S>, view: Names): Disk<S> { d.(views := d.views + [view]) }

  lemma PushShows<S(!new)>(d: Disk<S>, view: Names, path: string)
    requires Good(d, path) && d.Exists()
    requires forall n | n in view :: view[n] in d.files
    requires path in view ==> d.files[view[path]].synced && d.files[view[path]].text.Whole?
    ensures Good(Push(d, view), path) && Push(d, view).Visible() == view
    ensures forall c | Shows(Push(d, view), path, c) :: Shows(d, path, c) || c == At(d, view, path)
  {
    var e := Push(d, view);
    assert forall v | v in e.views :: v in d.views || v == view;
    assert forall v | v in e.views :: At(e, v, path) == At(d, v, path);
  }

  /** Writing a file that the path has not led to changes no outcome. */
  lemma WriteShows<S(!new)>(d: Disk<S>, i: Inode, f: File<S>, path: string)
    requires Good(d, path)
    requires forall v | v in d.views && path in v :: v[path] != i
    ensures Good(d.(files := d.files[i := f]), path)
    ensures AddsOnly(d, d.(files := d.files[i := f]), path, None)
  {
    var e := d.(files := d.files[i := f]);
    assert forall v | v in e.views :: At(e, v, path) == At(d, v, path);
  }

  lemma SyncShows<S(!new)>(d: Disk<S>, path: string)
    requires Good(d, path)
    ensures Good(d.(views := [d.Visible()]), path)
    ensures AddsOnly(d, d.(views := [d.Visible()]), path, None)
  {
    var e := d.(views := [d.Visible()]);
    assert d.Visible() in d.views;
    assert forall v | v in e.views :: v in d.views && At(e, v, path) == At(d, v, path);
  }

  /** New ancestors, or ancestors made durable, add no outcome. */
  lemma AncestorsShow<S(!new)>(d: Disk<S>, flags: seq<bool>, path: string)
    requires Good(d, path) && |d.ancestors| <= |flags| <= d.depth
    requires forall k | 0 <= k < |d.ancestors| :: d.ancestors[k] ==> flags[k]
    ensures Good(d.(ancestors := flags), path)
    ensures AddsOnly(d, d.(ancestors := flags), path, None)
  {
    var e := d.(ancestors := flags);
    assert forall v | v in e.views :: At(e, v, path) == At(d, v, path);
    if !d.Exists() {
      assert At(d, map[], path) == None;
    } else if !Rooted(e) {
      var k :| 0 <= k < |flags| && !flags[k];
      assert !d.ancestors[k] && d.ancestors[k] in d.ancestors;
    }
  }

  lemma AddsOnlyTransitive<S(!new)>(d: Disk<S>, e: Disk<S>, f: Disk<S>, path: string, extra: Option<S>)
    requires AddsOnly(d, e, path, None) && AddsOnly(e, f, path, extra)
    ensures AddsOnly(d, f, path, extra)
  {}

  // ---- Names ----

  function TempPrefix(base: string): string { "." + base + "." }

  predicate StartsWith(s: string, p: string) { |p| <= |s| && s[..|p|] == p }

  predicate EndsWith(s: string, p: string) { |p| <= |s| && s[|s| - |p|..] == p }

  predicate IsTemp(name: string, base: string) { StartsWith(name, TempPrefix(base)) && EndsWith(name, ".tmp") }

  function TempName(base: string, unique: string): string { TempPrefix(base) + unique + ".tmp" }

  /** A temporary name is recognized as one, and the checkpoint's own name never is. */
  lemma TempNames(base: string, unique: string)
    ensures IsTemp(TempName(base, unique), base)
    ensures !IsTemp(base, base)
  {
    var t := TempName(base, unique);
    assert t[..|TempPrefix(base)|] == TempPrefix(base);
    assert t[|t| - 4..] == ".tmp";
  }

  // ---- The file-system calls and the update built from them ----

  datatype Fault = PowerLost | Failed | NoCheckpoint | Rejected

  class CheckpointFiles<S(!new,==)> {
    const base: string
    /** With a number, exactly that call fails; without one, any call may. */
    const cut: Option<nat>
    var disk: Disk<S>
    var calls: nat

    constructor (base: string, disk: Disk<S>, cut: Option<nat>)
      ensures this.base == base && this.disk == disk && this.cut == cut && calls == 0
    {
      this.base, this.disk, this.cut, calls := base, disk, cut, 0;
    }

    /** The one failing call is over. */
    ghost predicate Calm()
      reads this
    {
      cut.Some? && cut.value < calls
    }

    ghost predicate Ready()
      reads this
    {
      Good(disk, base)
    }

    /** The call takes effect, has no effect, or is where the power is lost. */
    method Attempt() returns (r: Result<(), Fault>)
      modifies this`calls
      ensures calls == old(calls) + 1 && (cut.Some? ==> (r.Err? <==> old(calls) == cut.value))
    {
      var n: int := *;
      calls := calls + 1;
      if cut.Some? { n := if calls - 1 == cut.value then 0 else 2; }
      return if n == 0 then Err(PowerLost) else if n == 1 then Err(Failed) else Ok(());
    }

    /** Recursive mkdir: the index of the first name created, if any. */
    method Mkdir() returns (r: Result<Option<nat>, Fault>)
      requires Ready()
      modifies this
      ensures Ready() && AddsOnly(old(disk), disk, base, None) && disk == old(disk).(ancestors := disk.ancestors)
      ensures old(disk).ancestors <= disk.ancestors
      ensures forall k | |old(disk).ancestors| <= k < |disk.ancestors| :: !disk.ancestors[k]
      ensures r.Ok? ==> disk.Exists()
      ensures old(Calm()) ==> Calm() && r.Ok?
      ensures cut.Some? && old(calls <= cut.value < calls + disk.depth - |disk.ancestors|) ==>
                r.Err? && Calm() && |disk.ancestors| == |old(disk).ancestors| + cut.value - old(calls)
      ensures r.Ok? ==> r.value == if old(disk).Exists() then None else Some(|old(disk).ancestors|)
    {
      var existing := |disk.ancestors|;
      while |disk.ancestors| < disk.depth
        invariant disk == old(disk).(ancestors := disk.ancestors) && existing <= |disk.ancestors| <= disk.depth
        invariant Ready() && AddsOnly(old(disk), disk, base, None)
        invariant old(disk).ancestors == disk.ancestors[..existing]
        invariant forall k | existing <= k < |disk.ancestors| :: !disk.ancestors[k]
        invariant calls == old(calls) + |disk.ancestors| - existing && (cut.Some? ==> old(calls) > cut.value || calls <= cut.value)
        decreases disk.depth - |disk.ancestors|
      {
        var _ :- Attempt();
        AncestorsShow(disk, disk.ancestors + [false], base);
        disk := disk.(ancestors := disk.ancestors + [false]);
      }
      return Ok(if existing == disk.depth then None else Some(existing));
    }

    /** Syncs the directories that hold the names from `first` on. */
    method SyncAncestors(first: nat) returns (r: Result<(), Fault>)
      requires Ready() && disk.Exists()
      modifies this
      ensures old(Calm()) ==> Calm() && r.Ok?
      ensures Ready() && AddsOnly(old(disk), disk, base, None)
      ensures disk == old(disk).(ancestors := disk.ancestors) && disk.Exists()
      ensures r.Ok? ==> forall k | 0 <= k < disk.depth :: disk.ancestors[k] <==> first <= k || old(disk).ancestors[k]
    {
      var k := first;
      while k < disk.depth
        invariant disk == old(disk).(ancestors := disk.ancestors) && disk.Exists()
        invariant old(Calm()) ==> Calm()
        invariant Ready() && AddsOnly(old(disk), disk, base, None)
        invariant forall i | 0 <= i < disk.depth :: disk.ancestors[i] <==> first <= i < k || old(disk).ancestors[i]
      {
        var _ :- Attempt();
        AncestorsShow(disk, disk.ancestors[k := true], base);
        disk := disk.(ancestors := disk.ancestors[k := true]);
        k := k + 1;
      }
      return Ok(());
    }

    method SyncDirectory() returns (r: Result<(), Fault>)
      requires Ready()
      modifies this
      ensures old(Calm()) ==> Calm() && r.Ok?
      ensures Ready() && AddsOnly(old(disk), disk, base, None)
      ensures disk == if r.Ok? then old(disk).(views := [old(disk).Visible()]) else old(disk)
    {
      var _ :- Attempt();
      SyncShows(disk, base);
      disk := disk.(views := [disk.Visible()]);
      return Ok(());
    }

    method Unlink(name: string) returns (r: Result<(), Fault>)
      requires Ready() && name != base
      modifies this
      ensures old(Calm()) ==> Calm() && r.Ok?
      ensures Ready() && AddsOnly(old(disk), disk, base, None) && disk == old(disk).(views := disk.views)
      ensures disk.Visible() == if r.Ok? then old(disk).Visible() - {name} else old(disk).Visible()
      ensures Current(disk, base) == Current(old(disk), base)
    {
      var _ :- Attempt();
      if name in disk.Visible() {
        var view := disk.Visible() - {name};
        assert disk.Visible() in disk.views;
        PushShows(disk, view, base);
        assert At(disk, view, base) == At(disk, disk.Visible(), base);
        disk := Push(disk, view);
      } else {
        assert disk.Visible() - {name} == disk.Visible();
      }
      return Ok(());
    }

    /** Removes every temporary file and syncs the directory; the checkpoint stays as it is. */
    method CleanupTemps() returns (r: Result<(), Fault>)
      requires Ready()
      modifies this
      ensures old(Calm()) ==> Calm() && r.Ok?
      ensures Ready() && AddsOnly(old(disk), disk, base, None) && disk == old(disk).(views := disk.views)
      ensures Current(disk, base) == Current(old(disk), base)
      ensures r.Ok? ==> |disk.views| == 1 && forall n | n in disk.Visible() :: !IsTemp(n, base)
    {
      TempNames(base, "");
      var temps := set n | n in disk.Visible() && IsTemp(n, base);
      while temps != {}
        invariant old(Calm()) ==> Calm()
        invariant Ready() && AddsOnly(old(disk), disk, base, None) && disk == old(disk).(views := disk.views)
        invariant Current(disk, base) == Current(old(disk), base)
        invariant base !in temps
        invariant forall n | n in disk.Visible() && IsTemp(n, base) :: n in temps
      {
        var name :| name in temps;
        var _ :- Unlink(name);
        temps := temps - {name};
      }
      r := SyncDirectory();
    }

    /** Creates the empty temporary file. */
    method CreateTemp(temp: string) returns (r: Result<Inode, Fault>)
      requires Ready() && disk.Exists() && temp != base
      modifies this
      ensures old(Calm()) && temp !in old(disk).Visible() ==> Calm() && r.Ok?
      ensures Ready() && AddsOnly(old(disk), disk, base, None)
      ensures disk.ancestors == old(disk).ancestors && disk.depth == old(disk).depth
      ensures r.Ok? ==> forall v | v in disk.views && base in v :: v[base] != r.value
    {
      var _ :- Attempt();
      if temp in disk.Visible() { return Err(Failed); }
      var inode := Fresh(disk.files.Keys);
      assert disk.Visible() in disk.views;
      assert forall v | v in disk.views && base in v :: v[base] in disk.files;
      WriteShows(disk, inode, File(Torn, false), base);
      disk := disk.(files := disk.files[inode := File(Torn, false)]);
      PushShows(disk, disk.Visible()[temp := inode], base);
      assert At(disk, disk.Visible()[temp := inode], base) == At(disk, disk.Visible(), base);
      disk := Push(disk, disk.Visible()[temp := inode]);
      return Ok(inode);
    }

    /** One call on a file that the checkpoint's name does not lead to. */
    method Store(inode: Inode, file: File<S>) returns (r: Result<(), Fault>)
      requires Ready() && forall v | v in disk.views && base in v :: v[base] != inode
      modifies this
      ensures old(Calm()) ==> Calm() && r.Ok?
      ensures Ready() && AddsOnly(old(disk), disk, base, None)
      ensures disk == if r.Ok? then old(disk).(files := old(disk).files[inode := file]) else old(disk)
    {
      var _ :- Attempt();
      WriteShows(disk, inode, file, base);
      disk := disk.(files := disk.files[inode := file]);
      return Ok(());
    }

    /** Creates, writes and syncs the temporary file. */
    method WriteTemp(temp: string, doc: S) returns (r: Result<Inode, Fault>)
      requires Ready() && disk.Exists() && temp != base
      modifies this
      ensures old(Calm()) && temp !in old(disk).Visible() ==> Calm() && r.Ok?
      ensures Ready() && AddsOnly(old(disk), disk, base, None)
      ensures disk.ancestors == old(disk).ancestors && disk.depth == old(disk).depth
      ensures r.Ok? ==> r.value in disk.files && disk.files[r.value] == File(Whole(doc), true)
    {
      hide Good, AddsOnly;
      var inode :- CreateTemp(temp);
      ghost var created := disk;
      var _ :- Store(inode, File(Whole(doc), false));
      AddsOnlyTransitive(old(disk), created, disk, base, None);
      ghost var written := disk;
      var _ :- Store(inode, File(Whole(doc), true));
      AddsOnlyTransitive(old(disk), written, disk, base, None);
      return Ok(inode);
    }

    /** Gives the temporary file the checkpoint's name and makes that durable. */
    method Publish(temp: string, inode: Inode, doc: S) returns (r: Result<bool, Fault>)
      requires Ready() && disk.Exists() && temp != base
      requires inode in disk.files && disk.files[inode] == File(Whole(doc), true)
      modifies this
      ensures old(Calm()) ==> Calm() && r == Ok(true)
      ensures Ready() && AddsOnly(old(disk), disk, base, Some(doc))
      ensures disk.ancestors == old(disk).ancestors && disk.depth == old(disk).depth
      ensures r == Ok(false) ==> disk == old(disk)
      ensures r == Ok(true) ==> |disk.views| == 1 && Current(disk, base) == Some(Whole(doc))
    {
      var renamed := Attempt();
      if renamed == Err(PowerLost) { return Err(PowerLost); }
      if renamed.Err? { return Ok(false); }
      var view := (disk.Visible() - {temp})[base := inode];
      assert disk.Visible() in disk.views;
      PushShows(disk, view, base);
      disk := Push(disk, view);
      assert AddsOnly(old(disk), disk, base, Some(doc));
      var _ :- SyncDirectory();
      return Ok(true);
    }

    /**
      Replaces the checkpoint by way of a temporary file. Wherever it stops, a power loss shows an
      earlier outcome or the new document. When it returns, the new document is in place, and it
      is durable exactly when no missing directory was created below a name that was not durable.
     */
    method WriteFileAtomically(doc: S, unique: string) returns (r: Result<(), Fault>)
      requires Ready()
      modifies this
      ensures old(Calm()) && TempName(base, unique) !in old(disk).Visible() ==> Calm() && r.Ok?
      ensures Ready() && AddsOnly(old(disk), disk, base, Some(doc))
      ensures r.Ok? ==> disk.Exists() && |disk.views| == 1 && Current(disk, base) == Some(Whole(doc))
      ensures r.Ok? ==> (Rooted(disk) <==> old(disk).Exists() || forall a | a in old(disk).ancestors :: a)
    {
      var temp := TempName(base, unique);
      TempNames(base, unique);
      var created :- Mkdir();
      ghost var made := disk.ancestors;
      var _ :- SyncAncestors(if created.None? then 0 else created.value);
      RootedAfterSync(old(disk).ancestors, made, disk.ancestors, disk.depth);
      var written := WriteTemp(temp, doc);
      if written == Err(PowerLost) { return Err(PowerLost); }
      if written.Ok? {
        var published :- Publish(temp, written.value, doc);
        if published { return Ok(()); }
      }
      var unlinked := Unlink(temp);
      return Err(if unlinked == Err(PowerLost) then PowerLost else Failed);
    }

    /** Absent, or the document; the read is preceded by a clean-up that syncs the directory. */
    method Inspect() returns (r: Result<Option<S>, Fault>)
      requires Ready()
      modifies this
      ensures Ready() && AddsOnly(old(disk), disk, base, None) && disk == old(disk).(views := disk.views)
      ensures Current(disk, base) == Current(old(disk), base)
      ensures r.Ok? ==> Current(disk, base) == if r.value.Some? then Some(Whole(r.value.value)) else None
      ensures r.Ok? ==> |disk.views| == 1 && (r.value.Some? ==> disk.Exists())
    {
      var _ :- Attempt();
      if |disk.ancestors| < disk.depth { return Ok(None); }
      var _ :- CleanupTemps();
      var _ :- Attempt();
      assert disk.Visible() in disk.views;
      if base !in disk.Visible() { return Ok(None); }
      return Ok(Some(disk.files[disk.Visible()[base]].text.doc));
    }

    /** Read, transition, write. */
    method Update(transition: S -> Option<S>, unique: string) returns (r: Result<S, Fault>)
      requires Ready()
      modifies this
      ensures Ready() && UpdateAddsOnly(old(disk), disk, base, transition)
      ensures r.Ok? ==> Current(old(disk), base).Some? && Current(old(disk), base).value.Whole?
      ensures r.Ok? ==> transition(Current(old(disk), base).value.doc) == Some(r.value)
      ensures r.Ok? ==> Current(disk, base) == Some(Whole(r.value)) && |disk.views| == 1
      ensures r.Ok? && (Rooted(old(disk)) || Some(Whole(r.value)) != Current(old(disk), base)) ==>
                Durable(disk, base, r.value)
      ensures r.Err? && r.error in {NoCheckpoint, Rejected} ==>
                AddsOnly(old(disk), disk, base, None) && Current(disk, base) == Current(old(disk), base)
    {
      var found :- Inspect();
      if found.None? { return Err(NoCheckpoint); }
      var next := transition(found.value);
      if next.None? { return Err(Rejected); }
      if next.value == found.value {
        if Rooted(disk) { SyncedIsDurable(disk, base, next.value); }
        return Ok(next.value);
      }
      ghost var before := disk;
      var written := WriteFileAtomically(next.value, unique);
      AddsOnlyTransitive(old(disk), before, disk, base, next);
      if written.Err? { return Err(if written.error == PowerLost then PowerLost else Failed); }
      SyncedIsDurable(disk, base, next.value);
      return Ok(next.value);
    }

    /** An update on a durable checkpoint, with a restart or a re-inspection after a failure. */
    method UpdateOrRestart(ghost stored: S, transition: S -> Option<S>, loss: Disk<S> -> Disk<S>, retries: nat)
      returns (r: Result<S, Fault>, ghost took: bool)
      requires Durable(disk, base, stored) && IsPowerLoss(loss, base)
      modifies this
      ensures took ==> transition(stored).Some?
      ensures Durable(disk, base, if took then transition(stored).value else stored)
      ensures r.Ok? ==> took && transition(stored) == Some(r.value)
      ensures took ==> r.Ok? || r.error in {PowerLost, Failed}
    {
      DurableMeans(disk, base, stored);
      r := Update(transition, "unique");
      if r.Ok? { return r, true; }
      ghost var outcomes := transition(stored);
      var again: Result<Option<S>, Fault> := Err(r.error);
      var tries := 0;
      while again.Err? && again.error != PowerLost && tries < retries
        invariant Ready() && AddsOnly(old(disk), disk, base, outcomes)
        invariant r.error in {NoCheckpoint, Rejected} ==> AddsOnly(old(disk), disk, base, None)
        invariant again.Ok? ==> |disk.views| == 1
      {
        again := Inspect();
        tries := tries + 1;
      }
      if again.Err? {
        SurvivorIsSettled(disk, loss(disk), base);
        LossShowsAView(disk, loss(disk), base);
        assert Shows(disk, base, Current(loss(disk), base));
        disk := loss(disk);
      } else {
        CurrentIsShown(disk, base);
        assert !Shows(disk, base, None);
        SyncedIsDurable(disk, base, Current(disk, base).value.doc);
      }
      took := Current(disk, base) != Some(Whole(stored));
    }
  }

  // ---- Histories of updates ----

  /** The document left by the transitions that took effect, in order. */
  function Fold<S>(start: S, work: seq<S -> Option<S>>, applied: seq<bool>): (r: Option<S>)
    requires |work| == |applied|
  {
    if work == [] then Some(start)
    else
      var last := |work| - 1;
      var before := Fold(start, work[..last], applied[..last]);
      if before.Some? && applied[last] then work[last](before.value) else before
  }

  lemma FoldSnoc<S>(start: S, work: seq<S -> Option<S>>, applied: seq<bool>, next: S -> Option<S>, took: bool)
    requires |work| == |applied| && Fold(start, work, applied).Some?
    ensures Fold(start, work + [next], applied + [took]) ==
            if took then next(Fold(start, work, applied).value) else Fold(start, work, applied)
  {
    assert (work + [next])[..|work|] == work && (applied + [took])[..|work|] == applied;
  }

  /**
    Updates one after another, each with power losses and failing calls anywhere, the device
    restarting after each loss: the stored checkpoint is always the in-order fold of the updates
    that took effect, among them every update that returned.
   */
  method History<S(!new,==)>(files: CheckpointFiles<S>, start: S, work: seq<S -> Option<S>>, losses: seq<Disk<S> -> Disk<S>>, retries: nat)
    returns (results: seq<Result<S, Fault>>, ghost applied: seq<bool>, ghost ends: S)
    requires Durable(files.disk, files.base, start)
    requires |losses| == |work| && forall k | 0 <= k < |losses| :: IsPowerLoss(losses[k], files.base)
    modifies files
    ensures |results| == |applied| == |work|
    ensures forall k | 0 <= k < |work| && results[k].Ok? :: applied[k]
    ensures forall k | 0 <= k < |work| && applied[k] :: results[k].Ok? || results[k].error in {PowerLost, Failed}
    ensures Durable(files.disk, files.base, ends) && Fold(start, work, applied) == Some(ends)
  {
    results, applied, ends := [], [], start;
    while |results| < |work|
      invariant |results| == |applied| <= |work|
      invariant forall k | 0 <= k < |results| && results[k].Ok? :: applied[k]
      invariant forall k | 0 <= k < |results| && applied[k] :: results[k].Ok? || results[k].error in {PowerLost, Failed}
      invariant Durable(files.disk, files.base, ends)
      invariant Fold(start, work[..|results|], applied) == Some(ends)
    {
      var next := work[|results|];
      var result, took := files.UpdateOrRestart(ends, next, losses[|results|], retries);
      FoldSnoc(start, work[..|results|], applied, next, took);
      assert work[..|results|] + [next] == work[..|results| + 1];
      if took { ends := next(ends).value; }
      results := results + [result];
      applied := applied + [took];
    }
    assert work[..|results|] == work;
  }

  /**
    A first run is killed after it has made one of two missing directories; the next one writes the
    checkpoint and returns; a power loss can still leave nothing.
   */
  method KilledMkdirLosesCheckpoint<S(!new,==)>(doc: S) returns (files: CheckpointFiles<S>, first: Result<Option<nat>, Fault>, second: Result<(), Fault>)
    ensures first.Err? && second.Ok? && files.disk.Ok() && Current(files.disk, files.base) == Some(Whole(doc))
    ensures exists e :: Survives(files.disk, e) && Current(e, files.base) != Some(Whole(doc))
  {
    files := new CheckpointFiles("state.json", Disk(2, [], [map[]], map[]), Some(1));
    first := files.Mkdir();
    assert !files.disk.ancestors[0] && files.disk.ancestors[0] in files.disk.ancestors;
    second := files.WriteFileAtomically(doc, "next");
    SyncedSurvivesExactly(files.disk, files.base, doc);
  }

  // ---- The queue of updates ----

  /**
    A queued update. It starts when the one it was chained to has settled, successfully or not,
    reads the checkpoint, writes the result of its transition, and settles.
   */
  datatype Task<S> =
    | Waiting(after: Option<nat>)
    | Reading
    | Writing(read: S)
    | Settled

  /** `applied` records, for each task, whether its write took effect. */
  datatype Queue<!S> = Queue(stored: S, work: seq<S -> Option<S>>, tasks: seq<Task<S>>, tail: Option<nat>, applied: seq<bool>)

  ghost predicate Initial<S>(q: Queue<S>) { q.work == [] && q.tasks == [] && q.applied == [] && q.tail == None }

  /** A caller submits an update: it is chained to the tail and becomes the tail. */
  ghost predicate Submit<S(!new)>(q: Queue<S>, r: Queue<S>) {
    exists t: S -> Option<S> ::
      r == q.(work := q.work + [t], tasks := q.tasks + [Waiting(q.tail)], applied := q.applied + [false], tail := Some(|q.tasks|))
  }

  ghost predicate MayStart<S>(q: Queue<S>, i: nat)
    requires i < |q.tasks|
  {
    && q.tasks[i].Waiting?
    && (q.tasks[i].after.Some? ==> q.tasks[i].after.value < |q.tasks| && q.tasks[q.tasks[i].after.value].Settled?)
  }

  /** One task goes one step; any step may also fail and settle it. */
  ghost predicate Advance<S>(q: Queue<S>, r: Queue<S>, i: nat)
    requires i < |q.tasks| == |q.work| == |q.applied|
  {
    var task := q.tasks[i];
    || (MayStart(q, i) && r == q.(tasks := q.tasks[i := Reading]))
    || (task.Reading? && r == q.(tasks := q.tasks[i := Writing(q.stored)]))
    || ((task.Reading? || task.Writing?) && r == q.(tasks := q.tasks[i := Settled]))
    || (&& task.Writing? && q.work[i](task.read).Some?
        && r == q.(stored := q.work[i](task.read).value, tasks := q.tasks[i := Settled], applied := q.applied[i := true]))
  }

  ghost predicate Step<S(!new)>(q: Queue<S>, r: Queue<S>) {
    || Submit(q, r)
    || (|q.tasks| == |q.work| == |q.applied| && exists i | 0 <= i < |q.tasks| :: Advance(q, r, i))
  }

  ghost predicate Reachable<S(!new)>(run: seq<Queue<S>>) {
    run != [] && Initial(run[0]) && forall k | 0 <= k < |run| - 1 :: Step(run[k], run[k + 1])
  }

  ghost predicate Active<S>(t: Task<S>) { t.Reading? || t.Writing? }

  /** The first `done` tasks have settled, the next may be active, the others wait for it. */
  ghost predicate Ordered<S>(start: S, q: Queue<S>, done: nat) {
    && |q.tasks| == |q.work| == |q.applied| && done <= |q.tasks|
    && q.tail == (if q.tasks == [] then None else Some(|q.tasks| - 1))
    && (forall i | 0 <= i < done :: q.tasks[i].Settled?)
    && (done < |q.tasks| ==> !q.tasks[done].Settled?)
    && (forall i | done < i < |q.tasks| :: q.tasks[i].Waiting?)
    && (forall i | 0 <= i < |q.tasks| && q.tasks[i].Waiting? :: q.tasks[i].after == if i == 0 then None else Some(i - 1))
    && (forall i | done <= i < |q.tasks| :: !q.applied[i])
    && (done < |q.tasks| && q.tasks[done].Writing? ==> q.tasks[done].read == q.stored)
    && Fold(start, q.work[..done], q.applied[..done]) == Some(q.stored)
  }

  lemma SubmitKeepsOrder<S(!new)>(start: S, q: Queue<S>, r: Queue<S>, done: nat)
    requires Ordered(start, q, done) && Submit(q, r)
    ensures Ordered(start, r, done)
  {
    assert r.work[..done] == q.work[..done] && r.applied[..done] == q.applied[..done];
  }

  lemma AdvanceKeepsOrder<S(!new)>(start: S, q: Queue<S>, r: Queue<S>, done: nat, i: nat)
    requires Ordered(start, q, done) && i < |q.tasks| && Advance(q, r, i)
    ensures i == done && Ordered(start, r, if r.tasks[done].Settled? then done + 1 else done)
  {
    assert r.work[..done] == q.work[..done] && r.applied[..done] == q.applied[..done];
    assert r.work[..done + 1] == q.work[..done] + [q.work[done]];
    assert r.applied[..done + 1] == q.applied[..done] + [r.applied[done]];
    FoldSnoc(start, q.work[..done], q.applied[..done], q.work[done], r.applied[done]);
  }

  lemma {:induction false} RunIsOrdered<S(!new)>(run: seq<Queue<S>>) returns (done: nat)
    requires Reachable(run)
    ensures Ordered(run[0].stored, run[|run| - 1], done)
  {
    if |run| == 1 { return 0; }
    var before := run[..|run| - 1];
    done := RunIsOrdered(before);
    var q, r := run[|run| - 2], run[|run| - 1];
    assert before[|before| - 1] == q;
    if Submit(q, r) {
      SubmitKeepsOrder(run[0].stored, q, r, done);
    } else {
      var i :| 0 <= i < |q.tasks| && Advance(q, r, i);
      AdvanceKeepsOrder(run[0].stored, q, r, done, i);
      done := if r.tasks[done].Settled? then done + 1 else done;
    }
  }

  /**
    In every reachable state of the queue at most one update is at work, everything submitted
    before it has settled, an update about to write has read what is stored, and what is stored
    is the fold, in the order of submission, of the transitions whose writes took effect.
   */
  lemma {:induction false} UpdatesAreSerial<S(!new)>(run: seq<Queue<S>>)
    requires Reachable(run)
    ensures var q := run[|run| - 1];
            && |q.work| == |q.applied| == |q.tasks| && Fold(run[0].stored, q.work, q.applied) == Some(q.stored)
            && (forall i, j | 0 <= i < j < |q.tasks| && Active(q.tasks[j]) :: q.tasks[i].Settled?)
            && (forall i | 0 <= i < |q.tasks| && q.tasks[i].Writing? :: q.tasks[i].read == q.stored)
  {
    var q := run[|run| - 1];
    var done := RunIsOrdered(run);
    SkippedChangeNothing(run[0].stored, q.work, q.applied, done);
  }

  /** Updates without effect leave the fold as it is. */
  lemma {:induction false} SkippedChangeNothing<S>(start: S, work: seq<S -> Option<S>>, applied: seq<bool>, done: nat)
    requires |work| == |applied| && done <= |work| && forall i | done <= i < |work| :: !applied[i]
    ensures Fold(start, work, applied) == Fold(start, work[..done], applied[..done])
  {
    var last := |work| - 1;
    if done < |work| {
      SkippedChangeNothing(start, work[..last], applied[..last], done);
      assert work[..last][..done] == work[..done] && applied[..last][..done] == applied[..done];
    } else {
      assert work[..done] == work && applied[..done] == applied;
    }
  }

  /** Syncing from the first created name on roots the directory exactly when the rest was durable. */
  lemma RootedAfterSync(before: seq<bool>, made: seq<bool>, synced: seq<bool>, depth: nat)
    requires |before| <= depth && |made| == |synced| == depth && before <= made
    requires forall k | 0 <= k < depth ::
               synced[k] <==> (if |before| == depth then 0 else |before|) <= k || made[k]
    ensures (forall a | a in synced :: a) <==> |before| == depth || forall a | a in before :: a
  {
    if |before| < depth && false in before {
      var k :| 0 <= k < |before| && !before[k];
      assert !synced[k] && synced[k] in synced;
    } else {
      forall a | a in synced ensures a {
        var k :| 0 <= k < depth && synced[k] == a;
        if k < |before| < depth { assert before[k] in before; }
      }
    }
  }

  /** An inode that is not in use. */
  function Fresh(used: set<Inode>): (i: Inode)
    ensures i !in used
  {
    FreshFrom(used, 0)
  }

  function FreshFrom(used: set<Inode>, i: Inode): (j: Inode)
    ensures j !in used
    decreases |set k | k in used && k >= i|
  {
    if i !in used then i
    else
      assert (set k | k in used && k >= i + 1) + {i} == set k | k in used && k >= i;
      FreshFrom(used, i + 1)
  }
}
