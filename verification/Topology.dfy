/**
  The block-device ancestry search and the preflight checks that rest on it.
 */
module Topology {
  import opened Common

  datatype Device = Device(
    kernelName: string,
    canonicalPath: string,
    parents: seq<string>,
    mountpoints: seq<string>,
    kind: string,
    removable: bool,
    sizeBytes: nat,
    model: Option<string>,
    serial: Option<string>,
    transport: Option<string>)

  datatype Link = Link(path: string, resolvedPath: string)

  datatype Snapshot = Snapshot(devices: seq<Device>, links: seq<Link>)

  /** Later devices of the same name win, as in a map built from a list of entries. */
  function ByKernelName(ds: seq<Device>): (m: map<string, Device>)
    ensures forall n | n in m :: m[n].kernelName == n && m[n] in ds
    ensures forall d | d in ds :: d.kernelName in m
  {
    if ds == [] then map[]
    else ByKernelName(ds[..|ds| - 1])[ds[|ds| - 1].kernelName := ds[|ds| - 1]]
  }

  function ByPath(ds: seq<Device>): (m: map<string, Device>)
    ensures forall p | p in m :: m[p].canonicalPath == p && m[p] in ds
  {
    if ds == [] then map[]
    else ByPath(ds[..|ds| - 1])[ds[|ds| - 1].canonicalPath := ds[|ds| - 1]]
  }

  // ---- The parent graph ----

  /** Kernel name to the names of its parents. */
  type Graph = map<string, seq<string>>

  /** The graph a search from `device` walks: the snapshot's, with the device's own parents. */
  function GraphFrom(device: Device, byKernelName: map<string, Device>): Graph {
    (map n | n in byKernelName :: byKernelName[n].parents)[device.kernelName := device.parents]
  }

  ghost predicate Walk(g: Graph, w: seq<string>) {
    && w != []
    && forall i | 0 <= i < |w| - 1 :: w[i] in g && w[i + 1] in g[w[i]]
  }

  ghost predicate WalkTo(g: Graph, w: seq<string>, a: string, b: string) {
    Walk(g, w) && w[0] == a && w[|w| - 1] == b
  }

  /** The reflexive transitive closure of the parent relation. */
  ghost predicate Reaches(g: Graph, a: string, b: string) { exists w :: WalkTo(g, w, a, b) }

  ghost predicate ReachesProperly(g: Graph, a: string, b: string) { exists w :: WalkTo(g, w, a, b) && |w| >= 2 }

  ghost predicate OnCycle(g: Graph, a: string) { ReachesProperly(g, a, a) }

  /** Every ancestor of `a` resolves to a device and none lies on a cycle. */
  ghost predicate WellRooted(g: Graph, a: string) {
    forall b | Reaches(g, a, b) :: b in g && !OnCycle(g, b)
  }

  lemma StepReaches(g: Graph, a: string, p: string)
    requires a in g && p in g[a]
    ensures ReachesProperly(g, a, p) && Reaches(g, a, p)
  {
    assert WalkTo(g, [a, p], a, p);
  }

  lemma SelfReaches(g: Graph, a: string)
    ensures Reaches(g, a, a)
  {
    assert WalkTo(g, [a], a, a);
  }

  lemma JoinWalks(g: Graph, v: seq<string>, w: seq<string>, a: string, b: string, c: string)
    requires WalkTo(g, v, a, b) && WalkTo(g, w, b, c)
    ensures WalkTo(g, v + w[1..], a, c)
  {}

  lemma Transitive(g: Graph, a: string, b: string, c: string)
    requires Reaches(g, a, b) && Reaches(g, b, c)
    ensures Reaches(g, a, c)
    ensures ReachesProperly(g, a, b) || ReachesProperly(g, b, c) ==> ReachesProperly(g, a, c)
  {
    var v :| WalkTo(g, v, a, b);
    var w :| WalkTo(g, w, b, c);
    JoinWalks(g, v, w, a, b, c);
    if v' :| WalkTo(g, v', a, b) && |v'| >= 2 { JoinWalks(g, v', w, a, b, c); }
    if w' :| WalkTo(g, w', b, c) && |w'| >= 2 { JoinWalks(g, v, w', a, b, c); }
  }

  ghost predicate Closed(g: Graph, s: set<string>) {
    forall b | b in s :: b in g && forall p | p in g[b] :: p in s
  }

  /** Nothing outside a closed set is reachable from inside it. */
  lemma {:induction false} ClosedConfines(g: Graph, s: set<string>, w: seq<string>)
    requires Closed(g, s) && Walk(g, w) && w[0] in s
    ensures w[|w| - 1] in s
    decreases |w|
  {
    if |w| > 1 {
      assert w[0 + 1] in g[w[0]];
      ClosedConfines(g, s, w[1..]);
    }
  }

  lemma ClosedReach(g: Graph, s: set<string>, a: string, b: string)
    requires Closed(g, s) && a in s && Reaches(g, a, b)
    ensures b in s
  {
    var w :| WalkTo(g, w, a, b);
    ClosedConfines(g, s, w);
  }

  /** A node whose parents all lie in a closed set that leaves it out is on no cycle. */
  lemma NoCycleThrough(g: Graph, s: set<string>, n: string)
    requires Closed(g, s) && n !in s && n in g && forall p | p in g[n] :: p in s
    ensures !OnCycle(g, n)
  {
    if w :| WalkTo(g, w, n, n) && |w| >= 2 {
      assert w[0 + 1] in g[w[0]];
      ClosedConfines(g, s, w[1..]);
    }
  }

  /** What is wrong above a parent is wrong above its child. */
  lemma BadParent(g: Graph, n: string, p: string)
    requires n in g && p in g[n] && !WellRooted(g, p)
    ensures !WellRooted(g, n)
  {
    var b :| Reaches(g, p, b) && (b !in g || OnCycle(g, b));
    StepReaches(g, n, p);
    Transitive(g, n, p, b);
  }

  // ---- The search ----

  /** The two sets that the recursive visit updates. */
  ghost predicate DoneOutside(g: Graph, ancestors: set<string>, visiting: set<string>) {
    && visiting <= ancestors && visiting <= g.Keys
    && Closed(g, ancestors - visiting)
    && forall b | b in ancestors - visiting :: !OnCycle(g, b)
  }

  /** A node all of whose parents are done is done itself, and has added what it reaches. */
  lemma LeaveNode(g: Graph, before: set<string>, ancestors: set<string>, visiting: set<string>, n: string)
    requires DoneOutside(g, ancestors, visiting + {n}) && n in g && n !in visiting && before <= ancestors
    requires forall p | p in g[n] :: p in ancestors - (visiting + {n})
    requires forall b | b in ancestors :: b in before || b == n || Reaches(g, n, b)
    ensures DoneOutside(g, ancestors, visiting) && WellRooted(g, n) && n in ancestors - visiting
    ensures forall b :: b in ancestors <==> b in before || Reaches(g, n, b)
  {
    var done := ancestors - (visiting + {n});
    NoCycleThrough(g, done, n);
    assert ancestors - visiting == done + {n};
    SettledIsWell(g, ancestors - visiting, n);
    forall b | Reaches(g, n, b) ensures b in ancestors { assert b in ancestors - visiting; }
  }

  class Ancestry {
    const byKernelName: map<string, Device>
    ghost const graph: Graph
    var ancestors: set<string>
    var visiting: set<string>

    constructor (device: Device, byKernelName: map<string, Device>)
      requires forall n | n in byKernelName :: byKernelName[n].kernelName == n
      ensures this.byKernelName == byKernelName && graph == GraphFrom(device, byKernelName)
      ensures ancestors == {} && visiting == {}
    {
      this.byKernelName := byKernelName;
      graph := GraphFrom(device, byKernelName);
      ancestors, visiting := {}, {};
    }

    /** Visited nodes that are no longer being visited: closed, acyclic and done. */
    ghost predicate Settled()
      reads this
    {
      DoneOutside(graph, ancestors, visiting)
    }

    /** The snapshot's map and the walked graph agree wherever the search can still look. */
    ghost predicate Faithful(current: string)
      reads this`visiting
    {
      && (forall n | n in byKernelName :: byKernelName[n].kernelName == n && n in graph)
      && (forall n | n in byKernelName && n !in visiting && n != current :: byKernelName[n].parents == graph[n])
      && (forall n | n in graph :: n in byKernelName || n in visiting || n == current)
    }

    /**
      The depth-first visit. It succeeds exactly when every ancestor resolves and none lies on a
      cycle, and then it has added exactly the ancestors of the device.
     */
    method Visit(current: Device) returns (ok: bool)
      requires Faithful(current.kernelName) && current.kernelName in graph
      requires current.kernelName !in visiting ==> current.parents == graph[current.kernelName]
      requires Settled() && forall v | v in visiting :: ReachesProperly(graph, v, current.kernelName)
      modifies this
      ensures ok <==> WellRooted(graph, current.kernelName)
      ensures ok ==> Settled() && visiting == old(visiting)
      ensures ok ==> forall b :: b in ancestors <==> b in old(ancestors) || Reaches(graph, current.kernelName, b)
      ensures ok ==> current.kernelName in ancestors - visiting
      decreases |graph.Keys - visiting|, 0
    {
      hide WellRooted, Reaches, ReachesProperly, OnCycle, GraphFrom;
      var n := current.kernelName;
      if n in visiting {
        BadSelf(graph, n);
        return false;
      }
      if n in ancestors {
        SettledIsWell(graph, ancestors - visiting, n);
        return true;
      }
      visiting, ancestors := visiting + {n}, ancestors + {n};
      SmallerSet(graph.Keys - visiting, graph.Keys - old(visiting));
      assert ancestors - visiting == old(ancestors) - old(visiting);
      ok := VisitParents(current);
      if ok {
        assert visiting == old(visiting) + {n};
        LeaveNode(graph, old(ancestors), ancestors, old(visiting), n);
        visiting := visiting - {n};
        assert visiting == old(visiting);
      }
    }

    /** The loop over the parents of the device being visited. */
    method VisitParents(current: Device) returns (ok: bool)
      requires Faithful(current.kernelName) && current.kernelName in graph && current.parents == graph[current.kernelName]
      requires Settled() && current.kernelName in visiting
      requires forall v | v in visiting :: v == current.kernelName || ReachesProperly(graph, v, current.kernelName)
      modifies this
      ensures !ok ==> !WellRooted(graph, current.kernelName)
      ensures ok ==> Settled() && visiting == old(visiting) && old(ancestors) <= ancestors
      ensures ok ==> forall p | p in current.parents :: p in ancestors - visiting
      ensures ok ==> forall b | b in ancestors :: b in old(ancestors) || Reaches(graph, current.kernelName, b)
      decreases |graph.Keys - visiting|, 1
    {
      hide WellRooted, Reaches, ReachesProperly;
      var n := current.kernelName;
      for i := 0 to |current.parents|
        invariant visiting == old(visiting) && Settled() && old(ancestors) <= ancestors
        invariant forall k | 0 <= k < i :: current.parents[k] in ancestors - visiting
        invariant forall b | b in ancestors :: b in old(ancestors) || Reaches(graph, n, b)
      {
        var p := current.parents[i];
        StepReaches(graph, n, p);
        forall v | v in visiting ensures ReachesProperly(graph, v, p) {
          if v != n { Extend(graph, v, n, p); }
        }
        if p !in byKernelName {
          // Either unknown, or the searched device itself, which is still being visited.
          BadSelf(graph, p);
          BadParent(graph, n, p);
          return false;
        }
        ghost var before := ancestors;
        var found := Visit(byKernelName[p]);
        if !found {
          BadParent(graph, n, p);
          return false;
        }
        forall b | b in ancestors ensures b in old(ancestors) || Reaches(graph, n, b) {
          if b !in before { Transitive(graph, n, p, b); }
        }
      }
      return true;
    }
  }

  lemma BadSelf(g: Graph, n: string)
    requires n !in g || ReachesProperly(g, n, n)
    ensures !WellRooted(g, n)
  {
    SelfReaches(g, n);
  }

  lemma Extend(g: Graph, v: string, n: string, p: string)
    requires ReachesProperly(g, v, n) && n in g && p in g[n]
    ensures ReachesProperly(g, v, p)
  {
    StepReaches(g, n, p);
    Transitive(g, v, n, p);
  }

  /** Inside a closed set without cycles nothing is broken. */
  lemma SettledIsWell(g: Graph, s: set<string>, n: string)
    requires Closed(g, s) && n in s && forall b | b in s :: !OnCycle(g, b)
    ensures WellRooted(g, n) && Reaches(g, n, n)
    ensures forall b | Reaches(g, n, b) :: b in s
  {
    SelfReaches(g, n);
    forall b | Reaches(g, n, b) ensures b in s { ClosedReach(g, s, n, b); }
  }

  /** The ancestors of a device, itself included, or nothing if its ancestry is broken. */
  method AncestorsOf(device: Device, byKernelName: map<string, Device>) returns (r: Option<set<string>>)
    requires forall n | n in byKernelName :: byKernelName[n].kernelName == n
    ensures r.Some? <==> WellRooted(GraphFrom(device, byKernelName), device.kernelName)
    ensures r.Some? ==> forall b :: b in r.value <==> Reaches(GraphFrom(device, byKernelName), device.kernelName, b)
  {
    var search := new Ancestry(device, byKernelName);
    var ok := search.Visit(device);
    return if ok then Some(search.ancestors) else None;
  }

  // ---- Queries over a snapshot ----

  function Graphs(s: Snapshot, d: Device): Graph { GraphFrom(d, ByKernelName(s.devices)) }

  /** `name` is `d` or one of its ancestors. */
  ghost predicate IsAncestor(s: Snapshot, name: string, d: Device) { Reaches(Graphs(s, d), d.kernelName, name) }

  ghost predicate Resolves(s: Snapshot, d: Device) { WellRooted(Graphs(s, d), d.kernelName) }

  predicate IsRoot(d: Device) { "/" in d.mountpoints }

  /** The ancestors of every device mounted at the root, or nothing if that cannot be established. */
  method ActiveRootAncestors(s: Snapshot) returns (r: Option<set<string>>)
    ensures r.Some? <==> (exists d | d in s.devices :: IsRoot(d)) && (forall d | d in s.devices && IsRoot(d) :: Resolves(s, d))
    ensures r.Some? ==> forall n :: n in r.value <==> exists d | d in s.devices :: IsRoot(d) && IsAncestor(s, n, d)
  {
    hide Reaches, WellRooted, GraphFrom, ByKernelName;
    var byKernelName := ByKernelName(s.devices);
    var ancestors: set<string>, found := {}, false;
    for i := 0 to |s.devices|
      invariant found <==> exists k | 0 <= k < i :: IsRoot(s.devices[k])
      invariant forall k | 0 <= k < i && IsRoot(s.devices[k]) :: Resolves(s, s.devices[k])
      invariant forall n | n in ancestors :: exists k | 0 <= k < i :: IsRoot(s.devices[k]) && IsAncestor(s, n, s.devices[k])
      invariant forall k, n | 0 <= k < i && IsRoot(s.devices[k]) && IsAncestor(s, n, s.devices[k]) :: n in ancestors
    {
      var d := s.devices[i];
      if IsRoot(d) {
        found := true;
        var own := AncestorsOf(d, byKernelName);
        if own.None? { return None; }
        ancestors := ancestors + own.value;
      }
    }
    return if found then Some(ancestors) else None;
  }

  /** The mounted devices among the target and its descendants, or nothing if that cannot be established. */
  method MountedDescendants(target: Device, s: Snapshot) returns (r: Option<seq<Device>>)
    ensures r.Some? <==> forall d | d in s.devices && d.mountpoints != [] :: Resolves(s, d)
    ensures r.Some? ==> forall d :: d in r.value <==> d in s.devices && d.mountpoints != [] && IsAncestor(s, target.kernelName, d)
  {
    hide Reaches, WellRooted, GraphFrom, ByKernelName;
    var byKernelName := ByKernelName(s.devices);
    var descendants: seq<Device> := [];
    for i := 0 to |s.devices|
      invariant forall k | 0 <= k < i && s.devices[k].mountpoints != [] :: Resolves(s, s.devices[k])
      invariant forall d :: d in descendants <==>
                  exists k | 0 <= k < i :: s.devices[k] == d && d.mountpoints != [] && IsAncestor(s, target.kernelName, d)
    {
      var d := s.devices[i];
      if d.mountpoints != [] {
        var ancestors := AncestorsOf(d, byKernelName);
        if ancestors.None? { return None; }
        if target.kernelName in ancestors.value { descendants := descendants + [d]; }
      }
    }
    return Some(descendants);
  }

  // ---- Preflight ----

  datatype Constraints = Constraints(model: string, serial: string, transport: string, maxSizeBytes: nat)

  datatype Guardrail =
    | ActiveRootUnresolved | TargetNotFound | NotWholeDisk | ActiveSystemDisk | DescendantMountUnresolved
    | DescendantMounted | ModelMismatch | SerialMismatch | NotRemovable | TransportMismatch | SizeLimitExceeded
    | IdentityChanged

  function FindLink(links: seq<Link>, path: string): Option<string> {
    if links == [] then None else if links[0].path == path then Some(links[0].resolvedPath) else FindLink(links[1..], path)
  }

  function TargetOf(s: Snapshot, stableTarget: string): Option<Device> {
    var link := FindLink(s.links, stableTarget);
    if link.Some? && link.value in ByPath(s.devices) then Some(ByPath(s.devices)[link.value]) else None
  }

  predicate Matches(c: Constraints, d: Device) {
    && d.model == Some(c.model) && d.serial == Some(c.serial) && d.removable
    && d.transport == Some(c.transport) && d.sizeBytes <= c.maxSizeBytes
  }

  /** No device mounted at the root is the target or sits on it, and every root's ancestry is known. */
  ghost predicate SparesSystem(s: Snapshot, target: Device) {
    && (exists d | d in s.devices :: IsRoot(d))
    && forall d | d in s.devices && IsRoot(d) :: Resolves(s, d) && !IsAncestor(s, target.kernelName, d)
  }

  /** Every mounted device's ancestry is known, and none sits on the target unless that is allowed. */
  ghost predicate SparesMounts(s: Snapshot, target: Device, allowMounted: bool) {
    forall d | d in s.devices && d.mountpoints != [] ::
      Resolves(s, d) && (allowMounted || !IsAncestor(s, target.kernelName, d))
  }

  ghost predicate Acceptable(s: Snapshot, stableTarget: string, c: Constraints, allowMounted: bool) {
    && TargetOf(s, stableTarget).Some?
    && var target := TargetOf(s, stableTarget).value;
       target.kind == "disk" && Matches(c, target) && SparesSystem(s, target) && SparesMounts(s, target, allowMounted)
  }

  datatype Resolved = Resolved(mounted: seq<Device>, target: Device)

  /** A target passes exactly when it is the acceptable whole disk of its stable link. */
  method ResolveTarget(s: Snapshot, stableTarget: string, c: Constraints, allowMounted: bool)
    returns (r: Result<Resolved, Guardrail>)
    ensures r.Ok? <==> Acceptable(s, stableTarget, c, allowMounted)
    ensures r.Ok? ==> Some(r.value.target) == TargetOf(s, stableTarget)
    ensures r.Ok? ==> forall d :: d in r.value.mounted <==>
              d in s.devices && d.mountpoints != [] && IsAncestor(s, r.value.target.kernelName, d)
    ensures r.Err? && r.error != ActiveRootUnresolved && r.error != TargetNotFound ==> TargetOf(s, stableTarget).Some?
    ensures r == Err(ActiveSystemDisk) ==>
              exists d | d in s.devices :: IsRoot(d) && IsAncestor(s, TargetOf(s, stableTarget).value.kernelName, d)
    ensures r == Err(DescendantMounted) ==> !allowMounted
    ensures r == Err(DescendantMounted) ==>
              exists d | d in s.devices :: d.mountpoints != [] && IsAncestor(s, TargetOf(s, stableTarget).value.kernelName, d)
  {
    hide IsAncestor, Resolves;
    var rootAncestors := ActiveRootAncestors(s);
    if rootAncestors.None? { return Err(ActiveRootUnresolved); }
    var found := TargetOf(s, stableTarget);
    if found.None? { return Err(TargetNotFound); }
    var target := found.value;
    if target.kind != "disk" { return Err(NotWholeDisk); }
    if target.kernelName in rootAncestors.value { return Err(ActiveSystemDisk); }
    var mounted := MountedDescendants(target, s);
    if mounted.None? { return Err(DescendantMountUnresolved); }
    if !allowMounted && |mounted.value| > 0 {
      assert mounted.value[0] in mounted.value;
      return Err(DescendantMounted);
    }
    if target.model != Some(c.model) { return Err(ModelMismatch); }
    if target.serial != Some(c.serial) { return Err(SerialMismatch); }
    if !target.removable { return Err(NotRemovable); }
    if target.transport != Some(c.transport) { return Err(TransportMismatch); }
    if target.sizeBytes > c.maxSizeBytes { return Err(SizeLimitExceeded); }
    return Ok(Resolved(mounted.value, target));
  }

  /** The fields the recorded target identity is made of. */
  datatype Identity = Identity(
    canonicalPath: string, kernelName: string, model: Option<string>, removable: bool,
    serial: Option<string>, sizeBytes: nat, transport: Option<string>, kind: string)

  function IdentityOf(d: Device): Identity {
    Identity(d.canonicalPath, d.kernelName, d.model, d.removable, d.serial, d.sizeBytes, d.transport, d.kind)
  }

  /**
    The check right before writing: it passes exactly when the target is acceptable, mounts on it
    allowed, and it is still the device that was confirmed.
   */
  method RecheckForWrite(s: Snapshot, stableTarget: string, c: Constraints, confirmed: Identity)
    returns (r: Result<Resolved, Guardrail>)
    ensures r.Ok? <==> Acceptable(s, stableTarget, c, true) && IdentityOf(TargetOf(s, stableTarget).value) == confirmed
    ensures r.Ok? ==> SparesSystem(s, r.value.target) && r.value.target.canonicalPath == confirmed.canonicalPath
  {
    var resolved :- ResolveTarget(s, stableTarget, c, true);
    if IdentityOf(resolved.target) != confirmed { return Err(IdentityChanged); }
    return Ok(resolved);
  }
}
