/** Customizing the written image: partitions mounted, changed, unmounted and checked. */
module Customization {
  import opened Common
  import opened ImageFailure
  import opened RawImage

  datatype Adapted = AdapterPassed | AssertionsMissing | CapacityShort(role: string) | AdapterThrew

  datatype Partition = Partition(role: string, mountPath: string)

  /** An error raised inside: about customization, and without a claim. */
  ghost predicate FromCustomization(e: Failure) {
    e.CustomizationError? && ClaimsNothing(e)
  }

  lemma CustomizationFailureClaimsNothing(code: CustomizationCode)
    ensures FromCustomization(CustomizationFailure(code))
  {
    ClaimsNothingWrapped(CustomizationFailure(code));
  }

  function Repeated(e: Failure, count: nat): seq<Failure> { seq(count, _ => e) }

  /** Cleanup failures, on top of the operation's error if there is one. */
  function CleanupFailures(operation: Option<Failure>, count: nat, checked: bool): Failure {
    CustomizationError(CustomizationCleanupFailed, operation.None?, checked,
      Some(Aggregate((if operation.Some? then [operation.value] else []) + Repeated(CustomizationFailure(CustomizationCleanupFailed), count))))
  }

  /** Such a failure claims at most what its own flag says. */
  lemma CleanupFailuresClaim(operation: Option<Failure>, count: nat, checked: bool)
    requires operation.Some? ==> FromCustomization(operation.value)
    ensures !CarriesVerified(CleanupFailures(operation, count, checked))
    ensures CarriesChecked(CleanupFailures(operation, count, checked)) ==> checked
  {
    CustomizationFailureClaimsNothing(CustomizationCleanupFailed);
    var e := CleanupFailures(operation, count, checked);
    var a := e.cause.value;
    ClaimsNothingWrapped(a);
    assert Carried(e) == [a];
    forall n | Within(e, n) && n != e ensures Within(a, n) {}
    forall n | Within(a, n) ensures !(n.CustomizationError? && n.checked) && !(n.WriteError? && n.verified) {
      assert ClaimsNothing(a);
    }
  }

  function Paths(partitions: seq<Partition>): seq<string> {
    seq(|partitions|, i requires 0 <= i < |partitions| => partitions[i].mountPath)
  }

  class Customizer {
    const target: array<byte>
    var mounts: seq<string>
    var mounted: set<string>
    var cleanupErrors: nat
    /** The partitions that have passed the final check. */
    ghost var passed: seq<Partition>

    constructor (target: array<byte>)
      ensures this.target == target && mounts == [] && mounted == {} && cleanupErrors == 0 && passed == []
    {
      this.target, mounts, mounted, cleanupErrors, passed := target, [], {}, 0, [];
    }

    /** Whatever is mounted is on the list of what needs unmounting. */
    ghost predicate Listed()
      reads this
    {
      forall m | m in mounted :: m in mounts
    }

    method Sanitized(code: CustomizationCode) returns (e: Failure)
      ensures FromCustomization(e)
    {
      var aborted := Happens();
      e := CustomizationFailure(if aborted then CustomizationCanceled else code);
      CustomizationFailureClaimsNothing(e.problem);
    }

    method AnyCustomizationError() returns (e: Failure)
      ensures FromCustomization(e)
    {
      var code: CustomizationCode := *;
      e := CustomizationFailure(code);
      CustomizationFailureClaimsNothing(code);
    }

    method CheckCanceled() returns (r: Result<(), Failure>)
      ensures r.Err? ==> FromCustomization(r.error)
    {
      var aborted := Happens();
      if aborted {
        CustomizationFailureClaimsNothing(CustomizationCanceled);
        return Err(CustomizationFailure(CustomizationCanceled));
      }
      return Ok(());
    }

    method DiscoverPartitions() returns (r: Result<seq<Partition>, Failure>)
      ensures r.Err? ==> FromCustomization(r.error)
    {
      var found := Happens();
      if !found {
        var e := AnyCustomizationError();
        return Err(e);
      }
      var partitions: seq<Partition> := *;
      return Ok(partitions);
    }

    /** Unmounts in reverse order; what fails stays on the list and is counted. */
    method UnmountAll()
      requires Listed()
      modifies this`mounts, this`mounted, this`cleanupErrors
      ensures Listed() && |mounts| == cleanupErrors - old(cleanupErrors)
      ensures mounted <= old(mounted)
    {
      var copy := mounts;
      var k := |copy|;
      assert copy[..k] == copy;
      while k > 0
        invariant 0 <= k <= |copy|
        invariant Listed() && mounted <= old(mounted)
        invariant multiset(copy[..k]) <= multiset(mounts)
        invariant |mounts| == k + (cleanupErrors - old(cleanupErrors))
      {
        k := k - 1;
        assert copy[..k + 1] == copy[..k] + [copy[k]];
        assert copy[k] in multiset(mounts);
        var unmounts := Happens();
        var gone := Happens();
        if unmounts || gone { mounted := mounted - {copy[k]}; }
        if unmounts {
          RemoveFirst(copy[k]);
        } else {
          cleanupErrors := cleanupErrors + 1;
        }
      }
    }

    method RemoveFirst(path: string)
      requires path in mounts && path !in mounted && Listed()
      modifies this`mounts
      ensures multiset(mounts) == multiset(old(mounts)) - multiset{path} && |mounts| == |old(mounts)| - 1
      ensures Listed()
    {
      var i :| 0 <= i < |mounts| && mounts[i] == path;
      ghost var was := mounts;
      assert was == was[..i] + [path] + was[i + 1..];
      mounts := mounts[..i] + mounts[i + 1..];
      assert multiset(was) == multiset(mounts) + multiset{path};
      forall m | m in mounted ensures m in mounts { assert m in multiset(was) && m != path; }
    }

    /** Mounts the partitions, listing each before its mount is attempted. */
    method MountPartitions(partitions: seq<Partition>) returns (r: Result<(), Failure>)
      requires Listed()
      modifies this`mounts, this`mounted, target
      ensures Listed()
      ensures r.Ok? ==> mounts == old(mounts) + Paths(partitions) && AllMounted(partitions)
      ensures r.Err? ==> FromCustomization(r.error)
    {
      var rooted := Happens();
      if !rooted {
        var e := AnyCustomizationError();
        return Err(e);
      }
      for k := 0 to |partitions|
        invariant Listed() && mounts == old(mounts) + Paths(partitions[..k])
        invariant forall j | 0 <= j < k :: partitions[j].mountPath in mounted
      {
        assert Paths(partitions[..k + 1]) == Paths(partitions[..k]) + [partitions[k].mountPath];
        var made := Happens();
        if !made {
          var e := Sanitized(MountFailed);
          return Err(e);
        }
        mounts := mounts + [partitions[k].mountPath];
        var takesEffect := Happens();
        if takesEffect { mounted := mounted + {partitions[k].mountPath}; }
        Garble(target, 0, target.Length);
        if !takesEffect {
          var e := Sanitized(MountFailed);
          return Err(e);
        }
        var _ :- CheckCanceled();
      }
      assert partitions[..|partitions|] == partitions;
      return Ok(());
    }

    ghost predicate AllMounted(partitions: seq<Partition>)
      reads this
    {
      forall p | p in partitions :: p.mountPath in mounted
    }

    /** The adapter works on the mounted partitions and may change anything on the target. */
    method RunAdapter(ghost partitions: seq<Partition>) returns (a: Adapted)
      requires AllMounted(partitions)
      modifies target
    {
      Garble(target, 0, target.Length);
      a := *;
    }

    /** The one retry, after the root partition has been enlarged with everything unmounted. */
    method RetryWithCapacity(role: string, partitions: seq<Partition>) returns (r: Result<(seq<Partition>, Adapted), Failure>)
      requires Listed() && cleanupErrors == 0
      modifies this`mounts, this`mounted, this`cleanupErrors, target
      ensures Listed() && (r.Ok? ==> cleanupErrors == 0 && (r.value.1 == AdapterPassed || r.value.1 == AssertionsMissing))
      ensures r.Err? ==> FromCustomization(r.error)
    {
      var available := Happens();
      if role != "root" || !available {
        var e := Sanitized(CapacityInsufficient);
        return Err(e);
      }
      if forall p | p in partitions :: p.role != "root" {
        CustomizationFailureClaimsNothing(PartitionLayout);
        return Err(CustomizationFailure(PartitionLayout));
      }
      var _ :- UnmountBefore();
      Garble(target, 0, target.Length);
      var provisioned := Happens();
      if !provisioned {
        var e := AnyCustomizationError();
        return Err(e);
      }
      var again :- DiscoverPartitions();
      var _ :- CheckCanceled();
      var _ :- MountPartitions(again);
      var adapted := RunAdapter(again);
      if adapted.CapacityShort? {
        var e := Sanitized(CapacityInsufficient);
        return Err(e);
      }
      if adapted == AdapterThrew {
        var e := Sanitized(AdapterFailed);
        return Err(e);
      }
      return Ok((again, adapted));
    }

    /** Unmounts everything before going on, or gives up. */
    method UnmountBefore() returns (r: Result<(), Failure>)
      requires Listed() && cleanupErrors == 0
      modifies this`mounts, this`mounted, this`cleanupErrors
      ensures Listed() && (r.Ok? ==> mounted == {} && mounts == [] && cleanupErrors == 0)
      ensures r.Err? ==> FromCustomization(r.error)
    {
      UnmountAll();
      if cleanupErrors > 0 {
        CleanupFailuresClaim(None, cleanupErrors, false);
        return Err(CleanupFailures(None, cleanupErrors, false));
      }
      r := CheckCanceled();
    }

    method AdaptMounted() returns (r: Result<seq<Partition>, Failure>)
      requires Listed() && cleanupErrors == 0
      modifies this`mounts, this`mounted, this`cleanupErrors, target
      ensures Listed() && (r.Ok? ==> cleanupErrors == 0)
      ensures r.Err? ==> FromCustomization(r.error)
    {
      var partitions :- DiscoverPartitions();
      var _ :- CheckCanceled();
      var _ :- MountPartitions(partitions);
      var adapted := RunAdapter(partitions);
      if adapted == AdapterThrew {
        var e := Sanitized(AdapterFailed);
        return Err(e);
      }
      if adapted.CapacityShort? {
        var retried :- RetryWithCapacity(adapted.role, partitions);
        partitions, adapted := retried.0, retried.1;
      }
      var _ :- CheckCanceled();
      if adapted == AssertionsMissing {
        CustomizationFailureClaimsNothing(PostconditionFailed);
        return Err(CustomizationFailure(PostconditionFailed));
      }
      return Ok(partitions);
    }

    /** A read-only check of a partition, allowed only when nothing is mounted. */
    method CheckFilesystem(partition: Partition) returns (ok: bool)
      requires mounted == {}
      modifies this`passed
      ensures passed == if ok then old(passed) + [partition] else old(passed)
    {
      ok := Happens();
      if ok { passed := passed + [partition]; }
    }

    /** The operation proper: success means every partition was checked with nothing mounted. */
    method CustomizeAndCheck() returns (r: Result<nat, Failure>, ghost partitions: seq<Partition>)
      requires Listed() && cleanupErrors == 0 && passed == []
      modifies this`mounts, this`mounted, this`cleanupErrors, this`passed, target
      ensures Listed() && (r.Ok? ==> passed == partitions && r.value == |partitions|)
      ensures r.Err? ==> FromCustomization(r.error)
    {
      partitions := [];
      var adapted :- AdaptMounted();
      partitions := adapted;
      var _ :- UnmountBefore();
      for k := 0 to |adapted|
        invariant mounted == {} && passed == adapted[..k]
      {
        var ok := CheckFilesystem(adapted[k]);
        if !ok {
          var e := Sanitized(FilesystemCheckFailed);
          return Err(e), partitions;
        }
        assert adapted[..k + 1] == adapted[..k] + [adapted[k]];
        var _ :- CheckCanceled();
      }
      assert adapted[..|adapted|] == adapted;
      return Ok(|adapted|), partitions;
    }

    /**
      The whole customization. It returns only with every check passed and nothing left mounted;
      an error that claims completion was raised after every check had passed.
     */
    method CustomizeWrittenImage() returns (r: Result<nat, Failure>, ghost done: bool)
      requires mounts == [] && mounted == {} && cleanupErrors == 0 && passed == []
      modifies this`mounts, this`mounted, this`cleanupErrors, this`passed, target
      ensures r.Ok? ==> done && mounts == [] && mounted == {}
      ensures r.Err? ==> r.error.CustomizationError? && !CarriesVerified(r.error) && (CarriesChecked(r.error) ==> done)
      ensures mounted != {} ==> r.Err? && r.error.problem == CustomizationCleanupFailed
    {
      var valid := Happens();
      if !valid {
        CustomizationFailureClaimsNothing(InvalidInput);
        return Err(CustomizationFailure(InvalidInput)), false;
      }
      var checked, partitions := CustomizeAndCheck();
      done := checked.Ok? && passed == partitions;
      UnmountAll();
      if mounts == [] {
        var removes := Happens();
        if !removes { cleanupErrors := cleanupErrors + 1; }
      }
      var operation := if checked.Err? then Some(checked.error) else None;
      var late := CheckCanceled();
      if late.Err? && operation.None? { operation := Some(late.error); }
      if cleanupErrors > 0 {
        CleanupFailuresClaim(operation, cleanupErrors, checked.Ok?);
        return Err(CleanupFailures(operation, cleanupErrors, checked.Ok?)), done;
      }
      if operation.Some? { return Err(operation.value), done; }
      return Ok(checked.value), done;
    }
  }
}
