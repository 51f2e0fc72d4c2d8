/** The plan of an image: a tree of directories, files and links, built one placement at a time. */
module ImagePlan {
  import opened Common

  /** A path split at its slashes. */
  type Path = seq<string>

  predicate IsPath(p: Path) { p != [] && forall s | s in p :: '/' !in s }

  datatype Identity = Identity(uid: nat, gid: nat)

  /** Permission bits. */
  type Mode = m: nat | m < 512 witness 0

  /** 0755, the mode of a parent directory that the plan adds by itself. */
  const PARENT_MODE: Mode := 493

  datatype Entry =
    | Directory(path: Path, mode: Mode, identity: Identity)
    | RegularFile(path: Path, contents: seq<bv8>, mode: Mode, identity: Identity)
    | Link(path: Path, linkTarget: string, identity: Identity)

  datatype PlanError = InvalidInput

  // ---- Paths as strings ----

  function Join(p: Path): string
    requires p != []
  {
    if |p| == 1 then p[0] else p[0] + "/" + Join(p[1..])
  }

  predicate Above(p: Path, q: Path) { |p| < |q| && q[..|p|] == p }

  /** The string test for ancestry is the test on segments. */
  lemma {:induction false} AncestryOnStrings(p: Path, q: Path)
    requires IsPath(p) && IsPath(q)
    ensures Join(p) + "/" <= Join(q) <==> Above(p, q)
    decreases |p|
  {
    if |q| == 1 {
      SlashMissing(p[0], if |p| == 1 then "" else Join(p[1..]) + "/", q[0]);
      assert Join(p) + "/" == p[0] + "/" + if |p| == 1 then "" else Join(p[1..]) + "/";
    } else if |p| == 1 {
      FirstSegment(p[0], "", q[0], Join(q[1..]));
      assert p[0] + "/" == p[0] + "/" + "";
    } else {
      AncestryOnStrings(p[1..], q[1..]);
      FirstSegment(p[0], Join(p[1..]) + "/", q[0], Join(q[1..]));
      assert Join(p) + "/" == p[0] + "/" + (Join(p[1..]) + "/");
      assert Above(p, q) <==> p[0] == q[0] && Above(p[1..], q[1..]) by {
        if Above(p, q) {
          assert q[1..][..|p| - 1] == q[..|p|][1..];
          assert p[0] == q[..|p|][0];
        }
        if p[0] == q[0] && Above(p[1..], q[1..]) { assert q[..|p|] == [q[0]] + q[1..][..|p| - 1]; }
      }
    }
  }

  lemma SlashMissing(a: string, x: string, b: string)
    requires '/' !in b
    ensures !(a + "/" + x <= b)
  {
    assert (a + "/" + x)[|a|] == '/';
    assert |a| < |b| ==> b[|a|] in b;
  }

  /** Text up to the first slash decides whether one string begins another. */
  lemma FirstSegment(a: string, x: string, b: string, y: string)
    requires '/' !in a && '/' !in b
    ensures a + "/" + x <= b + "/" + y <==> a == b && x <= y
  {
    var s, t := a + "/" + x, b + "/" + y;
    assert forall i | 0 <= i < |a| :: s[i] == a[i] && a[i] in a;
    assert forall i | 0 <= i < |b| :: t[i] == b[i] && b[i] in b;
    assert s[|a|] == '/' && t[|b|] == '/';
    if s <= t {
      assert s[|a|] == t[|a|] && (|b| < |s| ==> s[|b|] == t[|b|]);
      assert |a| == |b| && a == s[..|a|] == t[..|a|] == b;
      assert s[|a| + 1..] == x && t[|b| + 1..] == y;
      assert s[|a| + 1..] == t[..|s|][|a| + 1..];
    }
    if a == b && x <= y {
      assert t[..|s|] == a + "/" + y[..|x|];
    }
  }

  // ---- The plan ----

  type Entries = map<Path, Entry>

  /** Every entry stands under its own path, and only directories have anything below them. */
  ghost predicate Leaves(entries: Entries) {
    && (forall p | p in entries :: IsPath(p) && entries[p].path == p)
    && (forall p, q | p in entries && q in entries && Above(p, q) :: entries[p].Directory?)
  }

  /** The parent directories of every entry are entries. */
  ghost predicate Closed(entries: Entries) {
    forall p, k | p in entries && 1 <= k < |p| :: p[..k] in entries
  }

  ghost predicate IsTree(entries: Entries) { Leaves(entries) && Closed(entries) }

  predicate AncestryFits(e: Entry, f: Entry) {
    (Above(f.path, e.path) ==> f.Directory?) && (Above(e.path, f.path) ==> e.Directory?)
  }

  predicate SameDirectory(e: Entry, f: Entry) {
    e.Directory? && f.Directory? && e.mode == f.mode && e.identity == f.identity
  }

  /** An entry that can be added. */
  ghost predicate Fits(entries: Entries, e: Entry) {
    && (forall p | p in entries :: AncestryFits(e, entries[p]))
    && (e.path in entries ==> SameDirectory(e, entries[e.path]))
  }

  /** All ancestors that are entries are directories. */
  ghost predicate ParentsFit(entries: Entries, path: Path) {
    forall k | 1 <= k < |path| && path[..k] in entries :: entries[path[..k]].Directory?
  }

  /** `after` is `before` with the missing ones of the first `n` ancestors added as given directories. */
  ghost predicate AddsAncestors(before: Entries, after: Entries, path: Path, n: nat, identity: Identity, mode: Mode)
    requires n <= |path|
  {
    && (forall p | p in before :: p in after && after[p] == before[p])
    && (forall p | p in after && p !in before ::
          && 1 <= |p| <= n && p == path[..|p|] && after[p] == Entry.Directory(p, mode, identity))
    && (forall k | 1 <= k <= n :: path[..k] in after)
  }

  lemma AncestorAdded(before: Entries, after: Entries, next: Entries, path: Path, k: nat, identity: Identity, mode: Mode)
    requires 1 <= k < |path| && AddsAncestors(before, after, path, k - 1, identity, mode) && IsTree(after)
    requires IsPath(path) && IsPath(path[..k])
    requires next == if path[..k] in after then after else after[path[..k] := Directory(path[..k], mode, identity)]
    requires path[..k] in after || Fits(after, Directory(path[..k], mode, identity))
    ensures AddsAncestors(before, next, path, k, identity, mode) && IsTree(next)
  {
    var parent := path[..k];
    if parent !in after {
      forall p, q | p in next && q in next && Above(p, q) ensures next[p].Directory? {
        if p != parent && q == parent { assert AncestryFits(Directory(parent, mode, identity), after[p]); }
      }
      forall p, j | p in next && 1 <= j < |p| ensures p[..j] in next {
        if p == parent { assert p[..j] == path[..j]; }
      }
    }
  }

  /** Adding an entry whose ancestors are all there keeps the tree. */
  lemma EntryAdded(entries: Entries, e: Entry)
    requires IsTree(entries) && IsPath(e.path) && e.path !in entries && Fits(entries, e)
    requires forall k | 1 <= k < |e.path| :: e.path[..k] in entries
    ensures IsTree(entries[e.path := e])
  {
    var next := entries[e.path := e];
    forall p, q | p in next && q in next && Above(p, q) ensures next[p].Directory? {
      if p == e.path { assert AncestryFits(e, entries[q]); }
      else if q == e.path { assert AncestryFits(e, entries[p]); }
    }
  }

  /** In a tree, an entry fits if its ancestors do and its own place does. */
  lemma FitsByParents(entries: Entries, e: Entry)
    requires IsTree(entries) && IsPath(e.path)
    ensures Fits(entries, e) <==>
            && ParentsFit(entries, e.path)
            && (e.path in entries ==> SameDirectory(e, entries[e.path]))
            && (e.Directory? || forall p | p in entries :: !Above(e.path, p))
  {
    if Fits(entries, e) {
      forall k | 1 <= k < |e.path| && e.path[..k] in entries ensures entries[e.path[..k]].Directory? {
        assert AncestryFits(e, entries[e.path[..k]]);
      }
      forall p | p in entries ensures e.Directory? || !Above(e.path, p) { assert AncestryFits(e, entries[p]); }
    }
    if ParentsFit(entries, e.path) && (e.Directory? || forall p | p in entries :: !Above(e.path, p)) {
      forall p | p in entries ensures AncestryFits(e, entries[p]) {
        if Above(p, e.path) { assert e.path[..|p|] == p; }
      }
    }
  }

  class Plan {
    var entries: Entries

    constructor ()
      ensures entries == map[] && IsTree(entries)
    {
      entries := map[];
    }

    /** Adds an entry exactly if it fits; a repeated directory is accepted and changes nothing. */
    method Add(e: Entry) returns (r: Result<(), PlanError>)
      requires Leaves(entries)
      modifies this
      ensures r.Ok? <==> Fits(old(entries), e)
      ensures entries == if r.Ok? && e.path !in old(entries) then old(entries)[e.path := e] else old(entries)
    {
      var todo := entries.Keys;
      while todo != {}
        invariant todo <= entries.Keys
        invariant forall p | p in entries && p !in todo :: AncestryFits(e, entries[p])
      {
        var p :| p in todo;
        todo := todo - {p};
        if !AncestryFits(e, entries[p]) { return Err(InvalidInput); }
      }
      if e.path !in entries {
        entries := entries[e.path := e];
        return Ok(());
      }
      return if SameDirectory(e, entries[e.path]) then Ok(()) else Err(InvalidInput);
    }

    /** Adds the missing ancestors of a path, top down. */
    method AddAncestors(path: Path, identity: Identity, mode: Mode) returns (r: Result<(), PlanError>)
      requires IsTree(entries) && IsPath(path)
      modifies this
      ensures IsTree(entries) && forall p | p in old(entries) :: p in entries && entries[p] == old(entries)[p]
      ensures r.Ok? ==> AddsAncestors(old(entries), entries, path, |path| - 1, identity, mode)
      ensures r.Err? ==> !ParentsFit(old(entries), path)
    {
      for k := 1 to |path|
        invariant IsTree(entries) && AddsAncestors(old(entries), entries, path, k - 1, identity, mode)
      {
        var parent := path[..k];
        ghost var before := entries;
        if parent !in entries {
          var added := Add(Entry.Directory(parent, mode, identity));
          if added.Err? {
            FitsByParents(before, Entry.Directory(parent, mode, identity));
            ghost var j :| 1 <= j < |parent| && parent[..j] in before && !before[parent[..j]].Directory?;
            assert parent[..j] == path[..j];
            return added;
          }
        }
        AncestorAdded(old(entries), before, entries, path, k, identity, mode);
      }
      return Ok(());
    }

    /** A directory, its missing ancestors with their own identity and mode. */
    method Directory(path: Path, mode: Mode, identity: Identity, ancestorIdentity: Identity, ancestorMode: Mode)
      returns (r: Result<(), PlanError>)
      requires IsTree(entries) && IsPath(path)
      modifies this
      ensures IsTree(entries) && forall p | p in old(entries) :: p in entries && entries[p] == old(entries)[p]
      ensures r.Ok? <==> Placeable(old(entries), Entry.Directory(path, mode, identity))
      ensures r.Ok? ==> Placed(old(entries), entries, Entry.Directory(path, mode, identity), ancestorIdentity, ancestorMode)
    {
      var _ :- AddAncestors(path, ancestorIdentity, ancestorMode);
      r := Place(old(entries), Entry.Directory(path, mode, identity), ancestorIdentity, ancestorMode);
    }

    method File(path: Path, contents: seq<bv8>, mode: Mode, identity: Identity, rootIdentity: Identity)
      returns (r: Result<(), PlanError>)
      requires IsTree(entries) && IsPath(path)
      modifies this
      ensures IsTree(entries) && forall p | p in old(entries) :: p in entries && entries[p] == old(entries)[p]
      ensures r.Ok? <==> Placeable(old(entries), RegularFile(path, contents, mode, identity))
      ensures r.Ok? ==> Placed(old(entries), entries, RegularFile(path, contents, mode, identity), rootIdentity, PARENT_MODE)
    {
      var _ :- AddAncestors(path, rootIdentity, PARENT_MODE);
      r := Place(old(entries), RegularFile(path, contents, mode, identity), rootIdentity, PARENT_MODE);
    }

    method SymbolicLink(path: Path, linkTarget: string, identity: Identity, rootIdentity: Identity)
      returns (r: Result<(), PlanError>)
      requires IsTree(entries) && IsPath(path)
      modifies this
      ensures IsTree(entries) && forall p | p in old(entries) :: p in entries && entries[p] == old(entries)[p]
      ensures r.Ok? <==> Placeable(old(entries), Link(path, linkTarget, identity))
      ensures r.Ok? ==> Placed(old(entries), entries, Link(path, linkTarget, identity), rootIdentity, PARENT_MODE)
    {
      var _ :- AddAncestors(path, rootIdentity, PARENT_MODE);
      r := Place(old(entries), Link(path, linkTarget, identity), rootIdentity, PARENT_MODE);
    }

    /** Adds the entry itself once its ancestors are there. */
    method Place(ghost before: Entries, e: Entry, ghost identity: Identity, ghost mode: Mode) returns (r: Result<(), PlanError>)
      requires IsTree(before) && IsTree(entries) && IsPath(e.path)
      requires AddsAncestors(before, entries, e.path, |e.path| - 1, identity, mode)
      modifies this
      ensures IsTree(entries) && forall p | p in before :: p in entries && entries[p] == before[p]
      ensures r.Ok? <==> Placeable(before, e)
      ensures r.Ok? ==> Placed(before, entries, e, identity, mode)
    {
      ghost var middle := entries;
      r := Add(e);
      FitsByParents(middle, e);
      PlaceableByFit(before, middle, e, identity, mode);
      if r.Ok? && e.path !in middle { EntryAdded(middle, e); }
    }

    /** Every entry once. */
    method Values() returns (values: seq<Entry>)
      requires Leaves(entries)
      ensures Lists(values, entries)
    {
      values := [];
      var todo := entries.Keys;
      while todo != {}
        invariant todo <= entries.Keys
        invariant forall k | 0 <= k < |values| :: values[k].path in entries.Keys - todo && entries[values[k].path] == values[k]
        invariant forall p | p in entries.Keys - todo :: entries[p] in values
        invariant forall i, j | 0 <= i < j < |values| :: values[i].path != values[j].path
      {
        var p :| p in todo;
        todo := todo - {p};
        values := values + [entries[p]];
      }
    }
  }

  /** The entry's ancestors are directories or new, and its place is free or the same directory. */
  ghost predicate Placeable(entries: Entries, e: Entry) {
    ParentsFit(entries, e.path) && (e.path in entries ==> SameDirectory(e, entries[e.path]))
  }

  /** Exactly the entry and its missing ancestors have been added. */
  ghost predicate Placed(before: Entries, after: Entries, e: Entry, identity: Identity, mode: Mode)
    requires e.path != []
  {
    && (forall p | p in before :: p in after && after[p] == before[p])
    && e.path in after && after[e.path] == e
    && (forall k | 1 <= k < |e.path| :: e.path[..k] in after && after[e.path[..k]].Directory?)
    && (forall p | p in after && p !in before && p != e.path :: Above(p, e.path) && after[p] == Entry.Directory(p, mode, identity))
  }

  lemma PlaceableByFit(before: Entries, middle: Entries, e: Entry, identity: Identity, mode: Mode)
    requires IsTree(before) && IsTree(middle) && IsPath(e.path)
    requires AddsAncestors(before, middle, e.path, |e.path| - 1, identity, mode)
    ensures Placeable(before, e) <==> Fits(middle, e)
    ensures Fits(middle, e) && e.path in middle ==> middle[e.path] == e
  {
    FitsByParents(middle, e);
    assert e.path !in before ==> e.path !in middle;
    forall p | p in middle && Above(e.path, p) ensures e.path in middle {
      assert p[..|e.path|] == e.path;
    }
  }

  /** The sequence lists every entry of the plan once. */
  ghost predicate Lists(values: seq<Entry>, entries: Entries) {
    && (forall k | 0 <= k < |values| :: values[k].path in entries && entries[values[k].path] == values[k])
    && (forall p | p in entries :: entries[p] in values)
    && (forall i, j | 0 <= i < j < |values| :: values[i].path != values[j].path)
  }
}
