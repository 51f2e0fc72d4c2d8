/**
  One process acquiring a lock while every other process stands still: the acquisition loop and
  the recursive recovery of stale locks, with the directory of lock files as their shared state.
 */
module LockRecovery {
  import opened Common
  import opened FileLock

  datatype Outcome<+T> = Returned(value: T) | TimedOut {
    predicate IsFailure() { TimedOut? }
    function PropagateFailure<U>(): Outcome<U> requires TimedOut? { TimedOut }
    function Extract(): T requires Returned? { value }
  }

  /** The levels at or above `n` that have a lock file. */
  function LevelsFrom(files: map<Level, Contents>, n: Level): set<Level> {
    set k | k in files && k >= n
  }

  lemma OneLevelFewer(files: map<Level, Contents>, n: Level)
    requires n in files
    ensures |LevelsFrom(files, n + 1)| < |LevelsFrom(files, n)|
  {
    assert LevelsFrom(files, n) == LevelsFrom(files, n + 1) + {n};
  }

  /** The first level at or above `n` without a lock file: the end of the contiguous run at `n`. */
  function FirstFree(files: map<Level, Contents>, n: Level): (free: Level)
    ensures n <= free && free !in files
    ensures forall k | n <= k < free :: k in files
    decreases |LevelsFrom(files, n)|
  {
    if n !in files then n else OneLevelFewer(files, n); FirstFree(files, n + 1)
  }

  class LockDirectory {
    const me: Birth
    const alive: set<Birth>
    const pollMs: nat
    var files: map<Level, Contents>
    var nextToken: Token
    var clock: nat

    constructor (me: Birth, others: set<Birth>, files: map<Level, Contents>, pollMs: nat)
      ensures this.me == me && alive == others + {me} && this.files == files && this.pollMs == pollMs && clock == 0
    {
      this.me, this.alive, this.files, this.pollMs := me, others + {me}, files, pollMs;
      nextToken, clock := 0, 0;
    }

    predicate OwnerIsAlive(c: Contents) { c.Owned? && c.birth in alive }

    /** Every lock of the contiguous run starting at `n` belongs to a dead owner. */
    ghost predicate RunIsStale(n: Level)
      reads this`files
    {
      forall k | n <= k < FirstFree(files, n) :: !OwnerIsAlive(files[k])
    }

    /** The directory with the run `[n, free)` removed. */
    ghost function WithoutRun(n: Level): map<Level, Contents>
      reads this`files
    {
      map k | k in files && !(n <= k < FirstFree(files, n)) :: files[k]
    }

    method TryAcquireOwnedLock(n: Level) returns (token: Token, acquired: bool)
      modifies this`files, this`nextToken
      ensures acquired <==> n !in old(files)
      ensures files == if acquired then old(files)[n := Owned(me, token)] else old(files)
    {
      token := nextToken;
      nextToken := nextToken + 1;
      acquired := n !in files;
      if acquired {
        files := files[n := Owned(me, token)];
      }
    }

    method Release(n: Level, token: Token)
      modifies this`files
      ensures files == if n in old(files) && old(files)[n] == Owned(me, token) then old(files) - {n} else old(files)
    {
      if n in files && files[n] == Owned(me, token) {
        files := files - {n};
      }
    }

    /**
      Called with a lock at `n` observed to be stale. It removes that lock exactly when the run of
      recovery locks above it is stale too, and then clears that run as well; otherwise the
      deadline passes and nothing has changed.
     */
    method RecoverStaleLock(n: Level, observed: Contents, deadline: nat) returns (r: Outcome<bool>, depth: nat)
      requires pollMs > 0 && clock <= deadline
      requires n in files && files[n] == observed && !OwnerIsAlive(observed)
      modifies this`files, this`nextToken, this`clock
      ensures r.Returned? <==> old(RunIsStale(n))
      ensures r.Returned? ==> r.value && files == old(WithoutRun(n)) && clock == old(clock)
      ensures r.Returned? ==> depth == FirstFree(old(files), n) - n
      ensures r.TimedOut? ==> files == old(files)
      decreases |LevelsFrom(files, n)|, 0
    {
      OneLevelFewer(files, n);
      assert FirstFree(files, n) == FirstFree(files, n + 1);
      var held, inner := AcquireFileLockUntil(n + 1, deadline);
      depth := inner + 1;
      if held.TimedOut? { return TimedOut, depth; }
      if n !in files || files[n] != observed || OwnerIsAlive(files[n]) {
        r := Returned(false);
      } else {
        files := files - {n};
        r := Returned(true);
      }
      Release(n + 1, held.value);
      assert files == old(WithoutRun(n));
    }

    /**
      The acquisition loop. It gets the lock exactly when the deadline has not passed and every
      lock of the contiguous run at `n` is stale. Then the whole run is gone, level `n` holds the
      new identity, no other level has changed, and recovery has nested once per stale level.
     */
    method AcquireFileLockUntil(n: Level, deadline: nat) returns (r: Outcome<Token>, depth: nat)
      requires pollMs > 0
      modifies this`files, this`nextToken, this`clock
      ensures r.Returned? <==> old(clock) <= deadline && old(RunIsStale(n))
      ensures r.Returned? ==> files == old(WithoutRun(n))[n := Owned(me, r.value)] && clock == old(clock)
      ensures r.Returned? ==> depth == FirstFree(old(files), n) - n
      ensures r.TimedOut? ==> files == old(files)
      decreases |LevelsFrom(files, n)|, 1
    {
      depth := 0;
      while clock <= deadline
        invariant files == old(files) || (n !in files && clock <= deadline && clock == old(clock) && old(RunIsStale(n)) && n in old(files))
        invariant n !in files ==> old(RunIsStale(n)) && files == old(WithoutRun(n)) && depth == FirstFree(old(files), n) - n
        invariant n !in files ==> clock == old(clock)
        invariant n in files && clock != old(clock) ==> OwnerIsAlive(files[n])
        decreases |LevelsFrom(files, n)|, deadline + pollMs - clock
      {
        var token, acquired := TryAcquireOwnedLock(n);
        if acquired { return Returned(token), depth; }

        var observed := files[n];
        if !OwnerIsAlive(observed) {
          var recovered, nested := RecoverStaleLock(n, observed, deadline);
          if recovered.TimedOut? { return TimedOut, nested; }
          depth := nested;
          if recovered.value {
            assert n in LevelsFrom(old(files), n) && n !in LevelsFrom(files, n);
            SmallerSet(LevelsFrom(files, n), LevelsFrom(old(files), n));
            continue;
          }
        }
        clock := clock + pollMs;
      }
      r := TimedOut;
    }
  }
}
