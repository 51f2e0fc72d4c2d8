/**
  The stale-lock protocol: any number of processes take a lock file by hard link, and remove a
  dead owner's lock while holding that lock's own recovery lock, one level further up. The
  suffixed paths `p`, `p.recovery`, `p.recovery.recovery`, ... are the levels 0, 1, 2, ...

  The protocol is a step relation over one shared directory. A step is one file-system or
  liveness call of one task, so every interleaving, every failing call and every death between
  two calls is a run.
 */
module FileLock {

  type Level = nat
  type Birth = nat     // process-birth identity: boot, pid and start time
  type Token = nat     // the unique part of one acquisition attempt
  type TaskId = nat

  /** What a lock file holds: a parsed owner, or text that is not an owner record. */
  datatype Contents = Owned(birth: Birth, token: Token) | Unparseable

  /** What a task does once its recovery lock is released. */
  datatype Resume = Retry | Pause | Fail

  datatype Pc =
    | Begin
    | Writing(token: Token)                      // candidate created, not yet complete
    | Ready(token: Token)                        // candidate complete and synced
    | Refused(token: Token)                      // link reported an existing file
    | Missed
    | Judging(observed: Contents)
    | Pausing
    | Linked(token: Token)
    | Holding(token: Token)                      // acquireFileLock has returned
    | Rereading(token: Token)
    | Confirming(token: Token)
    | Deleting(token: Token)
    | Releasing(token: Token, next: Resume)
    | Unlinking(token: Token, next: Resume)
    | Done

  /** One acquisition: `waiting` holds the identity observed at each level below the current one. */
  datatype Task = Task(birth: Birth, base: Level, waiting: seq<Contents>, pc: Pc) {
    function At(): Level { base + |waiting| }

    predicate Holds() {
      pc.Linked? || pc.Holding? || pc.Rereading? || pc.Confirming? || pc.Deleting? || pc.Releasing? || pc.Unlinking?
    }

    predicate HasToken() { Holds() || pc.Writing? || pc.Ready? || pc.Refused? }

    /** It holds a recovery lock and has seen the stale lock below still in place. */
    predicate Condemns() { pc.Confirming? || pc.Deleting? }

    function Identity(): Contents
      requires HasToken()
    {
      Owned(birth, pc.token)
    }

    /** The identity whose removal the current recovery lock protects. */
    function Condemned(): Contents
      requires waiting != []
    {
      waiting[|waiting| - 1]
    }
  }

  datatype State = State(
    files: map<Level, Contents>,
    pending: map<Token, Contents>,
    used: set<Token>,
    alive: set<Birth>,
    born: set<Birth>,
    tasks: map<TaskId, Task>) {

    predicate Alive(c: Contents) { c.Owned? && c.birth in alive }

    function Put(id: TaskId, t: Task): State { this.(tasks := tasks[id := t]) }

    predicate Live(id: TaskId) { id in tasks && tasks[id].birth in alive }
  }

  /** Leftover files of any kind may exist, but none of a process that is alive or yet to be born. */
  ghost predicate Init(s: State) {
    && s.alive == {} && s.tasks == map[] && s.pending == map[]
    && (forall n | n in s.files :: s.files[n].Owned? ==> s.files[n].birth in s.born)
    && (forall n | n in s.files :: s.files[n].Owned? ==> s.files[n].token in s.used)
  }

  // ---- Steps ----

  ghost predicate BirthStep(s: State, s': State) {
    exists b: Birth | b !in s.born :: s' == s.(alive := s.alive + {b}, born := s.born + {b})
  }

  ghost predicate DeathStep(s: State, s': State) {
    exists b: Birth | b in s.alive :: s' == s.(alive := s.alive - {b})
  }

  ghost predicate SpawnStep(s: State, s': State) {
    exists id: TaskId, b: Birth, base: Level | id !in s.tasks && b in s.alive ::
      s' == s.Put(id, Task(b, base, [], Begin))
  }

  /** Where a task goes after its lock at the current level is gone. */
  function AfterRelease(t: Task, next: Resume): Task {
    if t.waiting == [] || next == Fail then t.(pc := Done)
    else t.(waiting := t.waiting[..|t.waiting| - 1], pc := if next == Retry then Begin else Pausing)
  }

  /**
    A call that leaves every lock file as it is: how it changes the calling task, the candidates
    and the tokens given out so far.
   */
  ghost predicate LocalStep(s: State, t: Task, t': Task, pending': map<Token, Contents>, used': set<Token>) {
    || (used' == s.used && pending' == s.pending && Turn(s, t, t'))
    || (t.pc.Begin? && t'.pc.Writing? && t'.pc.token !in s.used && used' == s.used + {t'.pc.token}
        && pending' == s.pending[t'.pc.token := Unparseable] && t' == t.(pc := t'.pc))
    || (t.pc.Writing? && used' == s.used && pending' == s.pending[t.pc.token := t.Identity()]
        && t' == t.(pc := Ready(t.pc.token)))
    || (t.pc.Writing? && used' == s.used && pending' == s.pending - {t.pc.token} && t' == t.(pc := Done))
    || (t.pc.Refused? && used' == s.used && pending' == s.pending - {t.pc.token} && t' == t.(pc := Missed))
    || (t.pc.Linked? && used' == s.used && pending' == s.pending - {t.pc.token} && t' == Entered(t))
  }

  /** The lock at the current level is held: recovery work if this is a recovery lock. */
  function Entered(t: Task): Task
    requires t.pc.Linked?
  {
    t.(pc := if t.waiting == [] then Holding(t.pc.token) else Rereading(t.pc.token))
  }

  ghost predicate Turn(s: State, t: Task, t': Task) {
    match t.pc
    case Begin => t' == t.(pc := Done)                      // deadline passed or canceled
    case Writing(_) => t' == t.(pc := Done)
    case Ready(token) => t' == t.(pc := Done) || (t.At() in s.files && t' == t.(pc := Refused(token)))
    case Refused(_) => t' == t.(pc := Missed)
    case Missed =>
      || t' == t.(pc := Done)
      || t' == t.(pc := if t.At() in s.files then Judging(s.files[t.At()]) else Begin)
    case Judging(observed) =>
      // An unreadable process table counts as alive.
      || t' == t.(pc := Pausing)
      || (!s.Alive(observed) && t' == t.(waiting := t.waiting + [observed], pc := Begin))
    case Pausing => t' == t.(pc := Begin) || t' == t.(pc := Done)
    case Linked(_) => t' == Entered(t)
    case Holding(token) => t' == t.(pc := Releasing(token, Pause))
    case Rereading(token) =>
      || t' == t.(pc := Releasing(token, Fail))
      || (t.waiting != [] && t' == t.(pc :=
            if t.At() - 1 in s.files && s.files[t.At() - 1] == t.Condemned() then Confirming(token)
            else Releasing(token, Pause)))
    case Confirming(token) =>
      || t' == t.(pc := Releasing(token, Pause))
      || (t.waiting != [] && !s.Alive(t.Condemned()) && t' == t.(pc := Deleting(token)))
    case Deleting(token) =>
      || t' == t.(pc := Releasing(token, Fail))
      || (t.waiting != [] && t.At() - 1 !in s.files && t' == t.(pc := Releasing(token, Pause)))
    case Releasing(token, next) =>
      || t' == t.(pc := Done)
      || t' == if t.At() in s.files && s.files[t.At()] == t.Identity() then t.(pc := Unlinking(token, next))
               else AfterRelease(t, next)
    case Unlinking(token, next) =>
      || t' == t.(pc := Done)
      || (t.At() !in s.files && t' == AfterRelease(t, next))
    case Done => false
  }

  ghost predicate QuietStep(s: State, id: TaskId, s': State)
    requires id in s.tasks
  {
    && id in s'.tasks
    && s' == State(s.files, s'.pending, s'.used, s.alive, s.born, s.tasks[id := s'.tasks[id]])
    && LocalStep(s, s.tasks[id], s'.tasks[id], s'.pending, s'.used)
  }

  /** `link(candidate, path)`: the lock file appears with the candidate's complete contents. */
  ghost predicate LinkStep(s: State, id: TaskId, s': State)
    requires id in s.tasks
  {
    var t := s.tasks[id];
    && t.pc.Ready? && t.At() !in s.files && t.pc.token in s.pending
    && s' == s.(files := s.files[t.At() := s.pending[t.pc.token]]).Put(id, t.(pc := Linked(t.pc.token)))
  }

  /** `rm(path)` of the condemned lock one level below the recovery lock. */
  ghost predicate DeleteStep(s: State, id: TaskId, s': State)
    requires id in s.tasks
  {
    var t := s.tasks[id];
    && t.pc.Deleting? && t.waiting != [] && t.At() - 1 in s.files
    && s' == s.(files := s.files - {t.At() - 1}).Put(id, t.(pc := Releasing(t.pc.token, Retry)))
  }

  /** `rm(path)` of a lock file by its own holder. */
  ghost predicate UnlinkStep(s: State, id: TaskId, s': State)
    requires id in s.tasks
  {
    var t := s.tasks[id];
    && t.pc.Unlinking? && t.At() in s.files
    && s' == s.(files := s.files - {t.At()}).Put(id, AfterRelease(t, t.pc.next))
  }

  ghost predicate TaskStep(s: State, id: TaskId, s': State) {
    && s.Live(id)
    && (QuietStep(s, id, s') || LinkStep(s, id, s') || DeleteStep(s, id, s') || UnlinkStep(s, id, s'))
  }

  ghost predicate Next(s: State, s': State) {
    || BirthStep(s, s') || DeathStep(s, s') || SpawnStep(s, s')
    || exists id :: TaskStep(s, id, s')
  }

  ghost predicate IsRun(run: seq<State>) {
    && run != [] && Init(run[0])
    && forall i | 0 <= i < |run| - 1 :: Next(run[i], run[i + 1])
  }

  // ---- The invariant ----

  /** The owner named by `c` can never be alive again. */
  predicate ForeverDead(s: State, c: Contents) { c.Owned? ==> c.birth in s.born && c.birth !in s.alive }

  predicate Known(s: State, c: Contents) { c.Owned? ==> c.birth in s.born }

  ghost predicate TaskOk(s: State, t: Task) {
    && t.birth in s.born
    && (t.HasToken() ==> t.pc.token in s.used)
    && (t.pc.Judging? ==> Known(s, t.pc.observed))
    && (forall c | c in t.waiting :: ForeverDead(s, c))
    && (t.pc.Ready? ==> t.pc.token in s.pending && s.pending[t.pc.token] == t.Identity())
    && (t.pc.Rereading? || t.Condemns() ==> t.waiting != [])
    && (t.birth in s.alive && t.Holds() ==> t.At() in s.files && s.files[t.At()] == t.Identity())
    && (t.birth in s.alive && t.Condemns() ==>
          t.At() - 1 in s.files && s.files[t.At() - 1] == t.Condemned())
  }

  ghost predicate Inv(s: State) {
    && s.alive <= s.born
    && (forall n | n in s.files :: Known(s, s.files[n]))
    && (forall id | id in s.tasks :: TaskOk(s, s.tasks[id]))
    && (forall i, j | i in s.tasks && j in s.tasks && i != j && s.tasks[i].HasToken() && s.tasks[j].HasToken() ::
          s.tasks[i].pc.token != s.tasks[j].pc.token)
  }

  lemma InitEstablishesInv(s: State)
    requires Init(s)
    ensures Inv(s)
  {}

  /** The actor keeps its invariant, and no other task's candidate or token is touched. */
  lemma LocalKeeps(s: State, t: Task, s': State, t': Task)
    requires TaskOk(s, t) && t.birth in s.alive && (forall n | n in s.files :: Known(s, s.files[n]))
    requires s' == s.(pending := s'.pending, used := s'.used, tasks := s'.tasks)
    requires LocalStep(s, t, t', s'.pending, s'.used)
    ensures TaskOk(s', t') && t'.birth == t.birth && s.used <= s'.used
    ensures t'.HasToken() ==> (t.HasToken() && t'.pc.token == t.pc.token) || t'.pc.token !in s.used
    ensures forall k | k in s.used && !(t.HasToken() && t.pc.token == k) ::
              (k in s.pending <==> k in s'.pending) && (k in s.pending ==> s'.pending[k] == s.pending[k])
  {
    if s'.used == s.used && s'.pending == s.pending && Turn(s, t, t') { TurnKeeps(s, t, t', s'); }
  }

  lemma TurnKeeps(s: State, t: Task, t': Task, s': State)
    requires TaskOk(s, t) && t.birth in s.alive && (forall n | n in s.files :: Known(s, s.files[n]))
    requires s' == s.(tasks := s'.tasks)
    requires Turn(s, t, t')
    ensures TaskOk(s', t') && t'.birth == t.birth
    ensures t'.HasToken() ==> t.HasToken() && t'.pc.token == t.pc.token
  {
    match t.pc {
      case Judging(observed) => assert ForeverDead(s, observed) || s.Alive(observed);
      case _ =>
    }
  }

  lemma QuietPreserves(s: State, id: TaskId, s': State)
    requires Inv(s) && s.Live(id) && QuietStep(s, id, s')
    ensures Inv(s') && s'.files == s.files
  {
    LocalKeeps(s, s.tasks[id], s', s'.tasks[id]);
    forall j | j in s'.tasks && j != id ensures TaskOk(s', s'.tasks[j]) { assert TaskOk(s, s.tasks[j]); }
  }

  lemma LinkPreserves(s: State, id: TaskId, s': State)
    requires Inv(s) && s.Live(id) && LinkStep(s, id, s')
    ensures Inv(s')
  {
    assert TaskOk(s, s.tasks[id]);
    forall j | j in s'.tasks && j != id ensures TaskOk(s', s'.tasks[j]) { assert TaskOk(s, s.tasks[j]); }
  }

  /** Live holders of one level are one task. */
  lemma HoldersAgree(s: State, i: TaskId, j: TaskId)
    requires Inv(s) && s.Live(i) && s.Live(j)
    requires s.tasks[i].Holds() && s.tasks[j].Holds() && s.tasks[i].At() == s.tasks[j].At()
    ensures i == j
  {
    assert TaskOk(s, s.tasks[i]) && TaskOk(s, s.tasks[j]);
  }

  lemma DeletePreserves(s: State, id: TaskId, s': State)
    requires Inv(s) && s.Live(id) && DeleteStep(s, id, s')
    ensures Inv(s')
    ensures ForeverDead(s, s.files[s.tasks[id].At() - 1])
  {
    var t := s.tasks[id];
    assert TaskOk(s, t);
    assert ForeverDead(s, t.Condemned());
    forall j | j in s'.tasks && j != id ensures TaskOk(s', s'.tasks[j]) {
      assert TaskOk(s, s.tasks[j]);
      // Another recoverer of the same stale lock would hold the same recovery lock.
      if s.Live(j) && s.tasks[j].Condemns() && s.tasks[j].At() == t.At() { HoldersAgree(s, id, j); }
    }
  }

  lemma UnlinkPreserves(s: State, id: TaskId, s': State)
    requires Inv(s) && s.Live(id) && UnlinkStep(s, id, s')
    ensures Inv(s')
    ensures s.files[s.tasks[id].At()] == s.tasks[id].Identity()
  {
    var t := s.tasks[id];
    assert TaskOk(s, t);
    assert TaskOk(s', s'.tasks[id]) by {
      forall c | c in s'.tasks[id].waiting ensures ForeverDead(s', c) { assert c in t.waiting; }
    }
    forall j | j in s'.tasks && j != id ensures TaskOk(s', s'.tasks[j]) {
      assert TaskOk(s, s.tasks[j]);
      if s.Live(j) && s.tasks[j].Holds() && s.tasks[j].At() == t.At() { HoldersAgree(s, id, j); }
      // A condemned lock is a dead owner's, so it is not the lock being released.
      if s.Live(j) && s.tasks[j].Condemns() { assert ForeverDead(s, s.tasks[j].Condemned()); }
    }
  }

  lemma BirthPreserves(s: State, b: Birth, s': State)
    requires Inv(s) && b !in s.born && s' == s.(alive := s.alive + {b}, born := s.born + {b})
    ensures Inv(s')
  {
    forall j | j in s'.tasks ensures TaskOk(s', s'.tasks[j]) {
      assert TaskOk(s, s.tasks[j]);
      forall c | c in s.tasks[j].waiting ensures ForeverDead(s', c) { assert ForeverDead(s, c); }
    }
  }

  lemma DeathPreserves(s: State, b: Birth, s': State)
    requires Inv(s) && s' == s.(alive := s.alive - {b})
    ensures Inv(s')
  {
    forall j | j in s'.tasks ensures TaskOk(s', s'.tasks[j]) {
      assert TaskOk(s, s.tasks[j]);
      forall c | c in s.tasks[j].waiting ensures ForeverDead(s', c) { assert ForeverDead(s, c); }
    }
  }

  lemma SpawnPreserves(s: State, s': State)
    requires Inv(s) && SpawnStep(s, s')
    ensures Inv(s')
  {
    forall j | j in s'.tasks ensures TaskOk(s', s'.tasks[j]) {
      if j in s.tasks { assert TaskOk(s, s.tasks[j]); }
    }
  }

  lemma NextPreservesInv(s: State, s': State)
    requires Inv(s) && Next(s, s')
    ensures Inv(s')
  {
    if id :| TaskStep(s, id, s') {
      if QuietStep(s, id, s') { QuietPreserves(s, id, s'); }
      else if LinkStep(s, id, s') { LinkPreserves(s, id, s'); }
      else if DeleteStep(s, id, s') { DeletePreserves(s, id, s'); }
      else { UnlinkPreserves(s, id, s'); }
    } else if b: Birth :| b !in s.born && s' == s.(alive := s.alive + {b}, born := s.born + {b}) {
      BirthPreserves(s, b, s');
    } else if b: Birth :| b in s.alive && s' == s.(alive := s.alive - {b}) {
      DeathPreserves(s, b, s');
    } else {
      SpawnPreserves(s, s');
    }
  }

  lemma {:induction false} RunKeepsInv(run: seq<State>, k: nat)
    requires IsRun(run) && k < |run|
    ensures Inv(run[k])
  {
    if k == 0 {
      InitEstablishesInv(run[0]);
    } else {
      RunKeepsInv(run, k - 1);
      assert Next(run[k - 1], run[k - 1 + 1]);
      NextPreservesInv(run[k - 1], run[k]);
    }
  }

  // ---- Main results ----

  /**
    In every reachable state and at every level, a live holder's identity is exactly what the
    lock file contains, and so there is at most one live holder.
   */
  lemma MutualExclusion(run: seq<State>, k: nat, i: TaskId)
    requires IsRun(run) && k < |run|
    requires run[k].Live(i) && run[k].tasks[i].Holds()
    ensures run[k].tasks[i].At() in run[k].files
    ensures run[k].files[run[k].tasks[i].At()] == run[k].tasks[i].Identity()
    ensures forall j | run[k].Live(j) && run[k].tasks[j].Holds() && run[k].tasks[j].At() == run[k].tasks[i].At() :: j == i
  {
    var s := run[k];
    RunKeepsInv(run, k);
    assert TaskOk(s, s.tasks[i]);
    forall j | s.Live(j) && s.tasks[j].Holds() && s.tasks[j].At() == s.tasks[i].At() ensures j == i {
      HoldersAgree(s, i, j);
    }
  }

  /** What one step may do to the lock file at level `n`. */
  ghost predicate FairChange(s: State, s': State, n: Level) {
    || (n !in s.files && n !in s'.files)
    || (n in s.files && n in s'.files && s.files[n] == s'.files[n])
    // a free level is taken by the one whose identity appears there, and that one is alive
    || (n !in s.files && n in s'.files && exists i ::
          s'.Live(i) && s'.tasks[i].Holds() && s'.tasks[i].At() == n && s'.files[n] == s'.tasks[i].Identity())
    // a lock disappears because its live holder released it ...
    || (n in s.files && n !in s'.files && exists i ::
          s.Live(i) && s.tasks[i].Holds() && s.tasks[i].At() == n && s.files[n] == s.tasks[i].Identity())
    // ... or because its owner is dead and a live holder of the next level removed it
    || (n in s.files && n !in s'.files && ForeverDead(s, s.files[n]) && exists i ::
          s.Live(i) && s.tasks[i].Holds() && s.tasks[i].At() == n + 1)
  }

  /**
    No run ever overwrites a lock file, and none deletes the lock of a live owner other than the
    owner's own release.
   */
  lemma LocksChangeFairly(run: seq<State>, k: nat, n: Level)
    requires IsRun(run) && k + 1 < |run|
    ensures FairChange(run[k], run[k + 1], n)
  {
    var s, s' := run[k], run[k + 1];
    RunKeepsInv(run, k);
    assert Next(s, s');
    if id :| TaskStep(s, id, s') {
      assert TaskOk(s, s.tasks[id]);
      if QuietStep(s, id, s') { QuietPreserves(s, id, s'); }
      else if LinkStep(s, id, s') { assert s'.Live(id); }
      else if DeleteStep(s, id, s') { DeletePreserves(s, id, s'); }
      else { UnlinkPreserves(s, id, s'); }
    }
  }
}
