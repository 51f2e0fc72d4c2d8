/** Putting an image plan onto a mounted file system: preflight, ordered apply, verification. */
module ImageFilesystem {
  import opened Common
  import opened ImagePlan

  datatype Node =
    | DirectoryNode(mode: Mode, identity: Identity)
    | FileNode(contents: seq<bv8>, mode: Mode, identity: Identity, links: nat)
    | LinkNode(linkTarget: string, identity: Identity)
    | OtherNode

  /** What exists below the image root. */
  type Tree = map<Path, Node>

  datatype Metadata = PerEntry | Uniform(directoryMode: Mode, fileMode: Mode, identity: Identity)

  datatype Error = InvalidPlan | UnsafePath | PostconditionFailed | Missing | Exists | InputOutput

  function ModeFor(e: Entry, m: Metadata): Mode
    requires !e.Link?
  {
    if m.PerEntry? then e.mode else if e.Directory? then m.directoryMode else m.fileMode
  }

  function IdentityFor(e: Entry, m: Metadata): Identity {
    if m.PerEntry? then e.identity else m.identity
  }

  /** Names that cannot lead out of the root. */
  predicate SafePath(p: Path) {
    p != [] && forall s | s in p :: s != "" && s != "." && s != ".." && '\\' !in s
  }

  /** Everything lies in directories, and a uniform file system gives every node its metadata. */
  ghost predicate TreeOk(t: Tree, m: Metadata) {
    && (forall p, k | p in t && 1 <= k < |p| :: p[..k] in t && t[p[..k]].DirectoryNode?)
    && (m.Uniform? ==> forall p | p in t ::
          && (t[p].DirectoryNode? ==> t[p].mode == m.directoryMode && t[p].identity == m.identity)
          && (t[p].FileNode? ==> t[p].mode == m.fileMode && t[p].identity == m.identity))
  }

  /** What may already be in an entry's place. */
  predicate Replaceable(e: Entry, n: Node) {
    match e
    case Directory(_, _, _) => n.DirectoryNode?
    case RegularFile(_, _, _, _) => n.FileNode? && n.links == 1
    case Link(_, target, _) => n.LinkNode? && n.linkTarget == target
  }

  /** The node that an entry asks for. */
  predicate Matches(e: Entry, n: Node, m: Metadata) {
    match e
    case Directory(_, _, _) => n == DirectoryNode(ModeFor(e, m), IdentityFor(e, m))
    case RegularFile(_, contents, _, _) => n == FileNode(contents, ModeFor(e, m), IdentityFor(e, m), 1)
    case Link(_, target, _) => n == LinkNode(target, IdentityFor(e, m))
  }

  /** All existing ancestors are directories. */
  ghost predicate ParentsSafe(t: Tree, p: Path) {
    forall k | 1 <= k < |p| && p[..k] in t :: t[p[..k]].DirectoryNode?
  }

  ghost predicate Applicable(t: Tree, e: Entry, m: Metadata) {
    && SafePath(e.path) && (m.Uniform? ==> !e.Link?)
    && ParentsSafe(t, e.path) && (e.path in t ==> Replaceable(e, t[e.path]))
  }

  ghost predicate Unique(entries: seq<Entry>) {
    forall i, j | 0 <= i < j < |entries| :: entries[i].path != entries[j].path
  }

  ghost predicate Preflighted(t: Tree, entries: seq<Entry>, m: Metadata) {
    Unique(entries) && forall e | e in entries :: Applicable(t, e, m)
  }

  ghost predicate Verified(t: Tree, entries: seq<Entry>, m: Metadata) {
    forall e | e in entries :: SafePath(e.path) && e.path in t && Matches(e, t[e.path], m)
  }

  // ---- Order ----

  function Kind(e: Entry): nat {
    match e case Directory(_, _, _) => 0 case RegularFile(_, _, _, _) => 1 case Link(_, _, _) => 2
  }

  /** Kind first, then depth; paths of the same kind and depth may come in any order. */
  predicate NotAfter(e: Entry, f: Entry) {
    Kind(e) < Kind(f) || (Kind(e) == Kind(f) && |e.path| <= |f.path|)
  }

  ghost predicate Ordered(s: seq<Entry>) { forall i, j | 0 <= i < j < |s| :: NotAfter(s[i], s[j]) }

  function Insert(e: Entry, s: seq<Entry>): seq<Entry> {
    if s == [] || NotAfter(e, s[0]) then [e] + s else [s[0]] + Insert(e, s[1..])
  }

  function Sort(s: seq<Entry>): seq<Entry> {
    if s == [] then [] else Insert(s[0], Sort(s[1..]))
  }

  lemma OrderedCons(e: Entry, s: seq<Entry>)
    requires Ordered(s) && forall x | x in s :: NotAfter(e, x)
    ensures Ordered([e] + s)
  {}

  lemma {:induction false} InsertIsOrdered(e: Entry, s: seq<Entry>)
    requires Ordered(s)
    ensures Ordered(Insert(e, s)) && multiset(Insert(e, s)) == multiset(s) + multiset{e}
  {
    if s == [] || NotAfter(e, s[0]) {
      OrderedCons(e, s);
    } else {
      InsertIsOrdered(e, s[1..]);
      var r := Insert(e, s[1..]);
      assert s == [s[0]] + s[1..];
      forall x | x in r ensures NotAfter(s[0], x) {
        assert x in multiset(r);
        assert x == e || x in s[1..];
      }
      OrderedCons(s[0], r);
    }
  }

  /** Sorting orders the entries and keeps every one. */
  lemma {:induction false} SortIsOrdered(s: seq<Entry>)
    ensures Ordered(Sort(s)) && multiset(Sort(s)) == multiset(s)
  {
    if s != [] {
      SortIsOrdered(s[1..]);
      InsertIsOrdered(s[0], Sort(s[1..]));
      assert s == [s[0]] + s[1..];
    }
  }

  /** In sorted order, an entry's parent comes before it. */
  lemma ParentComesFirst(entries: Entries, sorted: seq<Entry>, k: nat)
    requires IsTree(entries) && k < |sorted| && |sorted[k].path| > 1
    requires Ordered(sorted) && forall p | p in entries :: entries[p] in sorted
    requires forall e | e in sorted :: e.path in entries && entries[e.path] == e
    ensures var p := sorted[k].path[..|sorted[k].path| - 1];
            exists j :: 0 <= j < k && sorted[j].path == p && sorted[j].Directory?
  {
    var path := sorted[k].path;
    var p := path[..|path| - 1];
    assert sorted[k] in sorted;
    assert p in entries && Above(p, path);
    var j :| 0 <= j < |sorted| && sorted[j] == entries[p];
    assert sorted[j].Directory?;
    assert !NotAfter(sorted[k], sorted[j]);
  }

  // ---- The writer ----

  /** The parent directory is there. */
  predicate ParentThere(t: Tree, p: Path)
    requires p != []
  {
    |p| == 1 || (p[..|p| - 1] in t && t[p[..|p| - 1]].DirectoryNode?)
  }

  predicate NodeFits(n: Node, m: Metadata) {
    m.Uniform? ==>
      && (n.DirectoryNode? ==> n.mode == m.directoryMode && n.identity == m.identity)
      && (n.FileNode? ==> n.mode == m.fileMode && n.identity == m.identity)
  }

  lemma PutKeepsTree(t: Tree, p: Path, n: Node, m: Metadata)
    requires TreeOk(t, m) && p != [] && ParentThere(t, p) && NodeFits(n, m)
    requires p in t && t[p].DirectoryNode? ==> n.DirectoryNode?
    ensures TreeOk(t[p := n], m)
  {
    var u := t[p := n];
    forall q, k | q in u && 1 <= k < |q| ensures q[..k] in u && u[q[..k]].DirectoryNode? {
      if q == p {
        var parent := p[..|p| - 1];
        if k < |p| - 1 { assert parent[..k] == p[..k]; }
      }
    }
  }

  /** Outside `p` nothing has changed. */
  ghost predicate OnlyAt(t: Tree, u: Tree, p: Path) {
    forall q | q != p :: (q in u <==> q in t) && (q in t ==> u[q] == t[q])
  }

  /** Placing one entry leaves the others applicable. */
  lemma OthersStayApplicable(t: Tree, u: Tree, e: Entry, f: Entry, m: Metadata)
    requires Applicable(t, f, m) && OnlyAt(t, u, e.path) && e.path != f.path
    requires e.path in u && Matches(e, u[e.path], m)
    requires Above(e.path, f.path) ==> e.Directory?
    ensures Applicable(u, f, m)
  {
    forall k | 1 <= k < |f.path| && f.path[..k] in u ensures u[f.path[..k]].DirectoryNode? {
      if f.path[..k] == e.path { assert Above(e.path, f.path); }
    }
  }

  /** The first `k` entries are in place, the others still applicable, everything else as it was. */
  ghost predicate Applying(t0: Tree, t: Tree, ordered: seq<Entry>, k: nat, plan: Entries, m: Metadata)
    requires k <= |ordered|
  {
    && TreeOk(t, m) && IsTree(plan) && SortedPlan(ordered, plan) && Untouched(t0, t, plan)
    && (forall j | 0 <= j < k :: ordered[j].path in t && Matches(ordered[j], t[ordered[j].path], m))
    && (forall j | k <= j < |ordered| :: Applicable(t, ordered[j], m))
  }

  ghost predicate SortedPlan(ordered: seq<Entry>, plan: Entries) {
    && Ordered(ordered) && (forall p | p in plan :: plan[p] in ordered)
    && (forall e | e in ordered :: e.path in plan && plan[e.path] == e)
    && (forall i, j | 0 <= i < j < |ordered| :: ordered[i].path != ordered[j].path)
  }

  /** Outside the plan nothing has changed. */
  ghost predicate Untouched(t0: Tree, t: Tree, plan: Entries) {
    forall p | p !in plan :: (p in t <==> p in t0) && (p in t ==> t[p] == t0[p])
  }

  lemma StartApplying(t: Tree, entries: seq<Entry>, ordered: seq<Entry>, plan: Entries, m: Metadata)
    requires IsTree(plan) && Preflighted(t, entries, m) && TreeOk(t, m)
    requires SortedPlan(ordered, plan) && forall e | e in ordered :: e in entries
    ensures Applying(t, t, ordered, 0, plan, m)
  {}

  lemma ApplyingMeans(t0: Tree, t: Tree, ordered: seq<Entry>, k: nat, plan: Entries, m: Metadata)
    requires k < |ordered| && Applying(t0, t, ordered, k, plan, m)
    ensures Applicable(t, ordered[k], m) && TreeOk(t, m) && ordered[k].path != []
    ensures ParentThere(t, ordered[k].path)
  {
    if |ordered[k].path| > 1 { ParentComesFirst(plan, ordered, k); }
  }

  lemma ApplyingStep(t0: Tree, t: Tree, u: Tree, ordered: seq<Entry>, k: nat, plan: Entries, m: Metadata)
    requires k < |ordered| && Applying(t0, t, ordered, k, plan, m)
    requires TreeOk(u, m) && OnlyAt(t, u, ordered[k].path)
    requires ordered[k].path in u && Matches(ordered[k], u[ordered[k].path], m)
    ensures Applying(t0, u, ordered, k + 1, plan, m)
  {
    forall j | k < j < |ordered| ensures Applicable(u, ordered[j], m) {
      OthersStayApplicable(t, u, ordered[k], ordered[j], m);
    }
  }

  lemma ApplyingStops(t0: Tree, t: Tree, u: Tree, ordered: seq<Entry>, k: nat, plan: Entries, m: Metadata)
    requires k < |ordered| && Applying(t0, t, ordered, k, plan, m) && OnlyAt(t, u, ordered[k].path)
    ensures Untouched(t0, u, plan)
  {
    assert ordered[k] in ordered;
  }

  lemma VerifiedMeans(t: Tree, entries: seq<Entry>, e: Entry, m: Metadata)
    requires Verified(t, entries, m) && e in entries
    ensures e.path in t && Matches(e, t[e.path], m)
  {}

  lemma PreflightedPaths(t: Tree, entries: seq<Entry>, m: Metadata)
    requires Preflighted(t, entries, m)
    ensures forall e | e in entries :: SafePath(e.path)
  {}

  lemma DoneApplying(t0: Tree, t: Tree, entries: seq<Entry>, ordered: seq<Entry>, plan: Entries, m: Metadata)
    requires Applying(t0, t, ordered, |ordered|, plan, m) && multiset(ordered) == multiset(entries)
    requires forall e | e in entries :: SafePath(e.path)
    ensures Verified(t, entries, m) && Untouched(t0, t, plan) && TreeOk(t, m)
  {
    forall e | e in entries ensures e.path in t && Matches(e, t[e.path], m) {
      assert e in multiset(ordered);
    }
  }

  class SafeImageWriter {
    const metadata: Metadata
    /** No call fails for reasons of its own. */
    const reliable: bool
    var tree: Tree

    constructor (metadata: Metadata, reliable: bool, tree: Tree)
      ensures this.metadata == metadata && this.reliable == reliable && this.tree == tree
    {
      this.metadata, this.reliable, this.tree := metadata, reliable, tree;
    }

    method Call() returns (r: Result<(), Error>)
      ensures r.Err? ==> !reliable && r.error == InputOutput
    {
      var fails: bool := *;
      return if fails && !reliable then Err(InputOutput) else Ok(());
    }

    /** Walks down the ancestors; a missing one ends the walk or is an error. */
    method AssertParents(path: Path, allowMissing: bool) returns (r: Result<(), Error>)
      requires TreeOk(tree, metadata) && path != []
      ensures r.Ok? ==> ParentsSafe(tree, path) && (allowMissing || ParentThere(tree, path))
      ensures r.Err? && reliable ==> !ParentsSafe(tree, path) || (!allowMissing && !ParentThere(tree, path))
    {
      for k := 1 to |path|
        invariant forall j | 1 <= j < k :: path[..j] in tree && tree[path[..j]].DirectoryNode?
      {
        var _ :- Call();
        if path[..k] !in tree {
          forall j | k < j < |path| ensures path[..j] !in tree { assert path[..j][..k] == path[..k]; }
          if !allowMissing && |path| - 1 > k { assert path[..|path| - 1] !in tree; }
          return if allowMissing then Ok(()) else Err(Missing);
        }
        if !tree[path[..k]].DirectoryNode? { return Err(UnsafePath); }
      }
      return Ok(());
    }

    /** Accepts exactly the plans that can be applied. */
    method Preflight(entries: seq<Entry>) returns (r: Result<(), Error>)
      requires TreeOk(tree, metadata)
      ensures r.Ok? ==> Preflighted(tree, entries, metadata)
      ensures r.Err? && reliable ==> !Preflighted(tree, entries, metadata)
    {
      var paths: set<Path> := {};
      for k := 0 to |entries|
        invariant forall i | 0 <= i < k :: entries[i].path in paths && Applicable(tree, entries[i], metadata)
        invariant forall p | p in paths :: exists i :: 0 <= i < k && entries[i].path == p
        invariant Unique(entries[..k])
      {
        var e := entries[k];
        assert e in entries;
        if e.path in paths { return Err(InvalidPlan); }
        paths := paths + {e.path};
        if metadata.Uniform? && e.Link? { return Err(InvalidPlan); }
        if !SafePath(e.path) { return Err(UnsafePath); }
        var _ :- AssertParents(e.path, true);
        var _ :- Call();
        if e.path in tree && !Replaceable(e, tree[e.path]) { return Err(UnsafePath); }
      }
      assert entries[..|entries|] == entries;
      return Ok(());
    }

    /** Makes the directory, or puts an existing one right. */
    method ApplyDirectory(e: Entry) returns (r: Result<(), Error>)
      requires e.Directory? && TreeOk(tree, metadata) && Applicable(tree, e, metadata)
      modifies this
      ensures TreeOk(tree, metadata) && OnlyAt(old(tree), tree, e.path)
      ensures r.Ok? ==> e.path in tree && Matches(e, tree[e.path], metadata)
      ensures reliable && ParentThere(old(tree), e.path) ==> r.Ok?
      ensures e.path in old(tree) && Matches(e, old(tree)[e.path], metadata) ==> tree == old(tree)
    {
      var _ :- Call();
      var wanted := DirectoryNode(ModeFor(e, metadata), IdentityFor(e, metadata));
      if e.path in tree && tree[e.path] == wanted { return Ok(()); }
      var _ :- Call();
      if e.path !in tree {
        if !ParentThere(tree, e.path) { return Err(Missing); }
        var mode: Mode :| metadata.Uniform? ==> mode == metadata.directoryMode;
        var identity: Identity := *;
        if metadata.Uniform? { identity := metadata.identity; }
        PutKeepsTree(tree, e.path, DirectoryNode(mode, identity), metadata);
        tree := tree[e.path := DirectoryNode(mode, identity)];
      }
      ParentOf(tree, e.path, metadata);
      if metadata.PerEntry? {
        var _ :- Call();
        var owner := tree[e.path].identity;
        PutKeepsTree(tree, e.path, DirectoryNode(e.mode, owner), metadata);
        tree := tree[e.path := DirectoryNode(e.mode, owner)];
        var _ :- Call();
        PutKeepsTree(tree, e.path, wanted, metadata);
        tree := tree[e.path := wanted];
      }
      return Ok(());
    }

    /** Replaces the file by way of a temporary one unless it is already right. */
    method ApplyFile(e: Entry) returns (r: Result<(), Error>)
      requires e.RegularFile? && TreeOk(tree, metadata) && Applicable(tree, e, metadata)
      modifies this
      ensures TreeOk(tree, metadata) && OnlyAt(old(tree), tree, e.path)
      ensures r.Ok? ==> e.path in tree && Matches(e, tree[e.path], metadata)
      ensures reliable && ParentThere(old(tree), e.path) ==> r.Ok?
      ensures e.path in old(tree) && Matches(e, old(tree)[e.path], metadata) ==> tree == old(tree)
    {
      var wanted := FileNode(e.contents, ModeFor(e, metadata), IdentityFor(e, metadata), 1);
      var _ :- AssertParents(e.path, false);
      var _ :- Call();
      if e.path in tree {
        if !tree[e.path].FileNode? || tree[e.path].links != 1 { return Err(UnsafePath); }
        if tree[e.path] == wanted { return Ok(()); }
      }
      // the temporary file is written, given its mode and owner, and synced
      var _ :- Call();
      PutKeepsTree(tree, e.path, wanted, metadata);
      tree := tree[e.path := wanted];
      var _ :- Call();
      return Ok(());
    }

    /** Makes the link, or gives an existing one its owner. */
    method ApplyLink(e: Entry) returns (r: Result<(), Error>)
      requires e.Link? && TreeOk(tree, metadata) && Applicable(tree, e, metadata)
      modifies this
      ensures TreeOk(tree, metadata) && OnlyAt(old(tree), tree, e.path)
      ensures r.Ok? ==> e.path in tree && Matches(e, tree[e.path], metadata)
      ensures reliable && ParentThere(old(tree), e.path) ==> r.Ok?
      ensures e.path in old(tree) && Matches(e, old(tree)[e.path], metadata) ==> tree == old(tree)
    {
      var _ :- Call();
      if e.path in tree {
        if tree[e.path].LinkNode? && tree[e.path].linkTarget == e.linkTarget {
          if tree[e.path].identity != e.identity {
            var _ :- Call();
            ParentOf(tree, e.path, metadata);
            PutKeepsTree(tree, e.path, LinkNode(e.linkTarget, e.identity), metadata);
            tree := tree[e.path := LinkNode(e.linkTarget, e.identity)];
          }
          return Ok(());
        }
        return Err(Exists);
      }
      if !ParentThere(tree, e.path) { return Err(Missing); }
      var identity: Identity := *;
      PutKeepsTree(tree, e.path, LinkNode(e.linkTarget, identity), metadata);
      tree := tree[e.path := LinkNode(e.linkTarget, identity)];
      var _ :- Call();
      PutKeepsTree(tree, e.path, LinkNode(e.linkTarget, e.identity), metadata);
      tree := tree[e.path := LinkNode(e.linkTarget, e.identity)];
      var _ :- Call();
      return Ok(());
    }

    method ApplyEntry(e: Entry) returns (r: Result<(), Error>)
      requires TreeOk(tree, metadata) && Applicable(tree, e, metadata)
      modifies this
      ensures TreeOk(tree, metadata) && OnlyAt(old(tree), tree, e.path)
      ensures r.Ok? ==> e.path in tree && Matches(e, tree[e.path], metadata)
      ensures reliable && ParentThere(old(tree), e.path) ==> r.Ok?
      ensures e.path in old(tree) && Matches(e, old(tree)[e.path], metadata) ==> tree == old(tree)
    {
      match e {
        case Directory(_, _, _) => r := ApplyDirectory(e);
        case RegularFile(_, _, _, _) => r := ApplyFile(e);
        case Link(_, _, _) => r := ApplyLink(e);
      }
    }

    /**
      Applies a plan in order. After preflight it fails only if a call does; when it returns, the
      plan is verified and nothing else has changed, and applying it again changes nothing.
     */
    method Apply(entries: seq<Entry>, ghost plan: Entries) returns (r: Result<(), Error>)
      requires IsTree(plan) && Lists(entries, plan)
      requires TreeOk(tree, metadata) && Preflighted(tree, entries, metadata)
      modifies this
      ensures TreeOk(tree, metadata) && Untouched(old(tree), tree, plan)
      ensures r.Ok? ==> Verified(tree, entries, metadata)
      ensures reliable ==> r.Ok?
      ensures Verified(old(tree), entries, metadata) ==> tree == old(tree)
    {
      hide Preflighted, IsTree, Lists, OnlyAt, Matches, Applicable, TreeOk, Applying, SortedPlan, Untouched, Verified, ParentThere;
      var ordered := Sort(entries);
      PreflightedPaths(tree, entries, metadata);
      SortIsOrdered(entries);
      SortedLists(entries, ordered, plan);
      StartApplying(tree, entries, ordered, plan, metadata);
      for k := 0 to |ordered|
        invariant Applying(old(tree), tree, ordered, k, plan, metadata)
        invariant Verified(old(tree), entries, metadata) ==> tree == old(tree)
      {
        ApplyingMeans(old(tree), tree, ordered, k, plan, metadata);
        var e := ordered[k];
        ghost var before := tree;
        if Verified(old(tree), entries, metadata) { VerifiedMeans(old(tree), entries, e, metadata); }
        var applied := ApplyEntry(e);
        if applied.Err? {
          ApplyingStops(old(tree), before, tree, ordered, k, plan, metadata);
          return applied;
        }
        ApplyingStep(old(tree), before, tree, ordered, k, plan, metadata);
      }
      DoneApplying(old(tree), tree, entries, ordered, plan, metadata);
      return Ok(());
    }

    /** Accepts exactly the trees that hold the plan. */
    method Verify(entries: seq<Entry>) returns (r: Result<(), Error>)
      ensures r.Ok? ==> Verified(tree, entries, metadata)
      ensures r.Err? && reliable ==> !Verified(tree, entries, metadata)
    {
      for k := 0 to |entries|
        invariant forall e | e in entries[..k] :: SafePath(e.path) && e.path in tree && Matches(e, tree[e.path], metadata)
      {
        var e := entries[k];
        assert e in entries && entries[..k + 1] == entries[..k] + [e];
        var _ :- Call();
        if !SafePath(e.path) { return Err(UnsafePath); }
        if e.path !in tree { return Err(Missing); }
        var n := tree[e.path];
        var sound :=
          match e
          case Directory(_, _, _) => n.DirectoryNode? && n.mode == ModeFor(e, metadata)
          case RegularFile(_, contents, _, _) => n.FileNode? && n.links == 1 && n.mode == ModeFor(e, metadata) && n.contents == contents
          case Link(_, linkTarget, _) => n.LinkNode? && n.linkTarget == linkTarget;
        if !sound || n.identity != IdentityFor(e, metadata) { return Err(PostconditionFailed); }
      }
      assert entries[..|entries|] == entries;
      return Ok(());
    }

    /** Preflight, apply, verify: without failing calls it succeeds exactly if preflight does. */
    method Install(entries: seq<Entry>, ghost plan: Entries) returns (r: Result<(), Error>)
      requires IsTree(plan) && Lists(entries, plan) && TreeOk(tree, metadata)
      modifies this
      ensures r.Ok? ==> Verified(tree, entries, metadata)
      ensures reliable ==> (r.Ok? <==> Preflighted(old(tree), entries, metadata))
      ensures TreeOk(tree, metadata) && Untouched(old(tree), tree, plan)
    {
      var _ :- Preflight(entries);
      var _ :- Apply(entries, plan);
      r := Verify(entries);
    }
  }

  /** A node of a tree has its parent there. */
  lemma ParentOf(t: Tree, p: Path, m: Metadata)
    requires TreeOk(t, m) && p in t && p != []
    ensures ParentThere(t, p)
  {}

  /** Sorting keeps the list of the plan's entries. */
  lemma SortedLists(entries: seq<Entry>, sorted: seq<Entry>, plan: Entries)
    requires Lists(entries, plan) && multiset(sorted) == multiset(entries)
    requires Ordered(sorted)
    ensures SortedPlan(sorted, plan) && forall e | e in sorted :: e in entries
  {
    forall e | e in sorted ensures e in entries { assert e in multiset(sorted); }
    forall p | p in plan ensures plan[p] in sorted { assert plan[p] in multiset(entries); }
    forall i, j | 0 <= i < j < |sorted| ensures sorted[i].path != sorted[j].path {
      OnceInMultiset(entries, sorted[i]);
      assert sorted[i] in sorted && sorted[j] in sorted;
      if sorted[i].path == sorted[j].path { TwiceInMultiset(sorted, i, j); }
    }
  }

  lemma TwiceInMultiset(s: seq<Entry>, i: nat, j: nat)
    requires i < j < |s| && s[i] == s[j]
    ensures multiset(s)[s[i]] >= 2
  {
    assert s == s[..i] + [s[i]] + s[i + 1..j] + [s[j]] + s[j + 1..];
  }

  lemma {:induction false} OnceInMultiset(s: seq<Entry>, e: Entry)
    requires Unique(s)
    ensures multiset(s)[e] <= 1
  {
    if s != [] {
      assert s == [s[0]] + s[1..];
      OnceInMultiset(s[1..], e);
      if s[0] == e { assert e !in s[1..]; }
    }
  }
}
