/** deploy/scripts/deployment_supervisor worker.py, security.py and monitor.py: the
    processes of one deployment operation around its flock.

    The processes run concurrently, so the protocol is a transition system: any number of
    starters, workers, probes (wait and failure-log) and cleaners, one action of one
    process at a time, any of them killed at any moment.  A lock belongs to an open file
    description; it is released when the last process sharing the description closes it. */
module SupervisorLock {
  import opened Common

  type Pid = nat
  type Description = nat

  /** Why a description was opened. */
  datatype Role = ForStart | ForProbe | ForCleanup

  datatype StartPc = Holding | Checked | HasClaim(claim: nat) | Spawned
  datatype WorkerPc = Inherited | Adopted | Working | StatusWritten

  datatype Process =
    | Starter(pc: StartPc, description: Description)
    | Worker(wpc: WorkerPc, description: Description, claim: nat)
    | Probe(description: Description)
    | Cleaner(description: Description)
      // A worker without the lock: adoption failed and closed the descriptor, or the
      // worker closed it after its status.
    | Adrift(claim: nat)
    | Closed(claim: nat)
  {
    predicate HasLock() { !Adrift? && !Closed? }
    function RoleOf(): Role
      requires HasLock()
    {
      if Starter? || Worker? then ForStart else if Probe? then ForProbe else ForCleanup
    }
    predicate IsWorker() { Worker? || Adrift? || Closed? }
  }

  datatype File = Launch | Status | Log | PidFile

  datatype State = State(
    processes: map<Pid, Process>,
    owner: Option<Description>,
    roles: seq<Role>,             // indexed by description, in order of opening
    files: set<File>,
    launches: seq<nat>)           // workers spawned, indexed by claim

  const INITIAL := State(map[], None, [], {}, [])

  datatype Action =
    | Acquire(pid: Pid, role: Role)
    | CheckUnstarted(pid: Pid)
    | Claim(pid: Pid)
    | Spawn(pid: Pid, child: Pid)
    | SpawnFails(pid: Pid)
    | Adopt(pid: Pid)
    | AdoptFails(pid: Pid)
    | Work(pid: Pid)
    | WriteStatus(pid: Pid)
    | CloseLock(pid: Pid)
    | Delete(pid: Pid, file: File)
    | Exit(pid: Pid)              // a return, an exception or a kill

  /** Some process still shares the description. */
  predicate Shared(ps: map<Pid, Process>, d: Description) {
    exists p <- ps :: ps[p].HasLock() && ps[p].description == d
  }

  /** The table changes; the lock goes when nobody shares its description any more. */
  function WithProcesses(s: State, ps: map<Pid, Process>): State {
    s.(processes := ps, owner := if s.owner.Some? && Shared(ps, s.owner.value) then s.owner else None)
  }

  predicate Enabled(s: State, a: Action) {
    match a
    case Acquire(pid, _) => pid !in s.processes && s.owner.None?
    case CheckUnstarted(pid) =>
      pid in s.processes && s.processes[pid].Starter? && s.processes[pid].pc.Holding? && s.files * {Status, Log, PidFile} == {}
    case Claim(pid) =>
      pid in s.processes && s.processes[pid].Starter? && s.processes[pid].pc.Checked? && Launch !in s.files
    case Spawn(pid, child) =>
      pid in s.processes && s.processes[pid].Starter? && s.processes[pid].pc.HasClaim? && child !in s.processes
    case SpawnFails(pid) => pid in s.processes && s.processes[pid].Starter? && s.processes[pid].pc.HasClaim?
    case Adopt(pid) =>
      // the separate shared probe is refused exactly when some description owns the lock
      pid in s.processes && s.processes[pid].Worker? && s.processes[pid].wpc.Inherited? && s.owner.Some?
    case AdoptFails(pid) => pid in s.processes && s.processes[pid].Worker? && s.processes[pid].wpc.Inherited?
    case Work(pid) => pid in s.processes && s.processes[pid].Worker? && s.processes[pid].wpc.Adopted?
    case WriteStatus(pid) =>
      pid in s.processes &&
      ((s.processes[pid].Worker? && (s.processes[pid].wpc.Adopted? || s.processes[pid].wpc.Working?)) || s.processes[pid].Adrift?)
    case CloseLock(pid) => pid in s.processes && s.processes[pid].Worker? && s.processes[pid].wpc.StatusWritten?
    case Delete(pid, _) => pid in s.processes && s.processes[pid].Cleaner?
    case Exit(pid) => pid in s.processes
  }

  function Do(s: State, a: Action): State
    requires Enabled(s, a)
  {
    match a
    case Acquire(pid, role) =>
      var d := |s.roles|;
      var p := match role case ForStart => Starter(Holding, d) case ForProbe => Probe(d) case ForCleanup => Cleaner(d);
      s.(processes := s.processes[pid := p], owner := Some(d), roles := s.roles + [role])
    case CheckUnstarted(pid) => s.(processes := s.processes[pid := s.processes[pid].(pc := Checked)])
    case Claim(pid) =>
      s.(processes := s.processes[pid := s.processes[pid].(pc := HasClaim(|s.launches|))],
         files := s.files + {Launch}, launches := s.launches + [0])
    case Spawn(pid, child) =>
      var starter := s.processes[pid];
      var claim := starter.pc.claim;
      s.(processes := s.processes[pid := starter.(pc := Spawned)][child := Worker(Inherited, starter.description, claim)],
         launches := if claim < |s.launches| then s.launches[claim := s.launches[claim] + 1] else s.launches)
    case SpawnFails(pid) =>
      s.(processes := s.processes[pid := s.processes[pid].(pc := Spawned)], files := s.files + {Status})
    case Adopt(pid) => s.(processes := s.processes[pid := s.processes[pid].(wpc := Adopted)])
    case AdoptFails(pid) => WithProcesses(s, s.processes[pid := Adrift(s.processes[pid].claim)])
    case Work(pid) =>
      s.(processes := s.processes[pid := s.processes[pid].(wpc := Working)], files := s.files + {Log, PidFile})
    case WriteStatus(pid) =>
      var p := s.processes[pid];
      s.(processes := s.processes[pid := if p.Adrift? then Closed(p.claim) else p.(wpc := StatusWritten)],
         files := s.files + {Status})
    case CloseLock(pid) => WithProcesses(s, s.processes[pid := Closed(s.processes[pid].claim)])
    case Delete(_, file) => s.(files := s.files - {file})
    case Exit(pid) => WithProcesses(s, s.processes - {pid})
  }

  /** Whoever has a description has the one that owns the lock, opened for its purpose. */
  ghost predicate LockInv(s: State) {
    && (forall p <- s.processes | s.processes[p].HasLock() ::
          && s.owner == Some(s.processes[p].description)
          && s.processes[p].description < |s.roles|
          && s.roles[s.processes[p].description] == s.processes[p].RoleOf())
    && (s.owner.Some? ==> s.owner.value < |s.roles| && Shared(s.processes, s.owner.value))
  }

  /** Only the holder of an unspent claim can launch, and it has launched nobody. */
  ghost predicate ClaimInv(s: State) {
    && (forall c | 0 <= c < |s.launches| :: s.launches[c] <= 1)
    && (forall p <- s.processes | s.processes[p].Starter? && s.processes[p].pc.HasClaim? ::
          s.processes[p].pc.claim < |s.launches| && s.launches[s.processes[p].pc.claim] == 0)
    && (forall p <- s.processes, q <- s.processes | s.processes[p].Starter? && s.processes[q].Starter? :: p == q)
  }

  /** There is at most one worker with the lock, and while there is one nobody can spawn. */
  ghost predicate WorkerInv(s: State) {
    forall p <- s.processes, q <- s.processes | s.processes[p].Worker? ::
      && (s.processes[q].Worker? ==> p == q)
      && (s.processes[q].Starter? ==> s.processes[q].pc.Spawned?)
  }

  /** From the starter's check to the worker's own start there is no log and no pid file. */
  ghost predicate FreshInv(s: State) {
    forall p <- s.processes |
      || (s.processes[p].Starter? && (s.processes[p].pc.Checked? || s.processes[p].pc.HasClaim?))
      || (s.processes[p].Worker? && (s.processes[p].wpc.Inherited? || s.processes[p].wpc.Adopted?)) ::
        Log !in s.files && PidFile !in s.files
  }

  ghost predicate Inv(s: State) { LockInv(s) && ClaimInv(s) && WorkerInv(s) && FreshInv(s) }

  lemma Replaced(s: State, pid: Pid, next: Process)
    requires LockInv(s) && pid in s.processes && s.processes[pid].HasLock() && next.HasLock()
    requires next.description == s.processes[pid].description && next.RoleOf() == s.processes[pid].RoleOf()
    ensures LockInv(s.(processes := s.processes[pid := next]))
  {
    var ps := s.processes[pid := next];
    assert ps[pid].HasLock() && ps[pid].description == s.owner.value;
    assert Shared(ps, s.owner.value);
  }

  lemma Dropped(s: State, ps: map<Pid, Process>)
    requires LockInv(s)
    requires forall p <- ps | ps[p].HasLock() :: p in s.processes && ps[p] == s.processes[p]
    ensures LockInv(WithProcesses(s, ps))
  {
    var s' := WithProcesses(s, ps);
    forall p <- ps | ps[p].HasLock()
      ensures s'.owner == Some(ps[p].description)
    {
      assert s.owner == Some(s.processes[p].description);
      assert Shared(ps, s.owner.value);
    }
  }

  lemma LockStep(s: State, a: Action)
    requires LockInv(s) && Enabled(s, a)
    ensures LockInv(Do(s, a))
  {
    var s' := Do(s, a);
    match a
    case Acquire(pid, _) =>
      assert s'.processes[pid].HasLock() && s'.processes[pid].description == |s.roles|;
      assert Shared(s'.processes, |s.roles|);
      assert forall p <- s.processes :: !s.processes[p].HasLock();
    case CheckUnstarted(pid) => Replaced(s, pid, s'.processes[pid]);
    case Claim(pid) => Replaced(s, pid, s'.processes[pid]);
    case SpawnFails(pid) => Replaced(s, pid, s'.processes[pid]);
    case Adopt(pid) => Replaced(s, pid, s'.processes[pid]);
    case Work(pid) => Replaced(s, pid, s'.processes[pid]);
    case Spawn(pid, child) =>
      Replaced(s, pid, s'.processes[pid]);
      assert s'.processes[child].HasLock();
      assert Shared(s'.processes, s.owner.value) by { assert s'.processes[pid].HasLock(); }
    case WriteStatus(pid) =>
      if s.processes[pid].Adrift? {
        if s.owner.Some? {
          var q :| q in s.processes && s.processes[q].HasLock() && s.processes[q].description == s.owner.value;
          assert s'.processes[q] == s.processes[q];
          assert Shared(s'.processes, s.owner.value);
        }
      } else {
        Replaced(s, pid, s'.processes[pid]);
      }
    case AdoptFails(pid) => Dropped(s, s'.processes);
    case CloseLock(pid) => Dropped(s, s'.processes);
    case Exit(pid) => Dropped(s, s'.processes);
    case Delete(_, _) =>
  }

  lemma ClaimStep(s: State, a: Action)
    requires LockInv(s) && ClaimInv(s) && Enabled(s, a)
    ensures ClaimInv(Do(s, a))
  {
    var s' := Do(s, a);
    if a.Acquire? {
      assert forall p <- s.processes :: !s.processes[p].HasLock();
    }
  }

  lemma WorkerStep(s: State, a: Action)
    requires Inv(s) && Enabled(s, a)
    ensures WorkerInv(Do(s, a))
  {
    if a.Acquire? {
      assert forall p <- s.processes :: !s.processes[p].HasLock();
    }
  }

  lemma FreshStep(s: State, a: Action)
    requires Inv(s) && Enabled(s, a)
    ensures FreshInv(Do(s, a))
  {
    if a.Acquire? {
      assert forall p <- s.processes :: !s.processes[p].HasLock();
    }
    if a.CheckUnstarted? {
      assert forall file <- {Status, Log, PidFile} :: file in s.files ==> file in s.files * {Status, Log, PidFile};
    }
    if a.Work? {
      assert forall q <- s.processes | s.processes[q].Starter? :: s.processes[q].pc.Spawned?;
      assert forall q <- s.processes | s.processes[q].Worker? :: q == a.pid;
    }
  }

  lemma InvStep(s: State, a: Action)
    requires Inv(s) && Enabled(s, a)
    ensures Inv(Do(s, a))
  {
    LockStep(s, a);
    ClaimStep(s, a);
    WorkerStep(s, a);
    FreshStep(s, a);
  }

  // ----- runs

  ghost predicate Legal(s: State, actions: seq<Action>)
    decreases |actions|
  {
    actions == [] || (Enabled(s, actions[0]) && Legal(Do(s, actions[0]), actions[1..]))
  }

  ghost function Run(s: State, actions: seq<Action>): State
    requires Legal(s, actions)
    decreases |actions|
  {
    if actions == [] then s else Run(Do(s, actions[0]), actions[1..])
  }

  lemma {:induction false} InvHolds(s: State, actions: seq<Action>)
    requires Inv(s) && Legal(s, actions)
    ensures Inv(Run(s, actions))
    decreases |actions|
  {
    if actions != [] {
      InvStep(s, actions[0]);
      InvHolds(Do(s, actions[0]), actions[1..]);
    }
  }

  /** In every run each claim launches at most one worker, and at every moment at most one
      worker has the lock. */
  lemma OneWorkerPerClaim(actions: seq<Action>, claim: nat, worker: Pid, other: Pid)
    requires Legal(INITIAL, actions)
    ensures var s := Run(INITIAL, actions);
      && (claim < |s.launches| ==> s.launches[claim] <= 1)
      && (worker in s.processes && s.processes[worker].Worker? && other in s.processes && s.processes[other].Worker? ==> worker == other)
  {
    InvHolds(INITIAL, actions);
  }

  /** A worker that begins to work finds neither a log nor a pid file and leaves both, whatever
      earlier operations or cleaners did. */
  lemma WorkStartsFresh(actions: seq<Action>, worker: Pid)
    requires Legal(INITIAL, actions) && Enabled(Run(INITIAL, actions), Work(worker))
    ensures var s := Run(INITIAL, actions);
      s.files * {Log, PidFile} == {} && {Log, PidFile} <= Do(s, Work(worker)).files
  {
    InvHolds(INITIAL, actions);
  }

  predicate DeletesLaunch(actions: seq<Action>) {
    exists i :: 0 <= i < |actions| && actions[i].Delete? && actions[i].file.Launch?
  }

  /** The launch file of a claim stays until a cleaner deletes it. */
  lemma {:induction false} LaunchStays(s: State, actions: seq<Action>)
    requires Legal(s, actions) && Launch in s.files
    ensures Launch in Run(s, actions).files || DeletesLaunch(actions)
    decreases |actions|
  {
    if actions != [] {
      var s' := Do(s, actions[0]);
      if Launch in s'.files {
        LaunchStays(s', actions[1..]);
        if DeletesLaunch(actions[1..]) {
          var i :| 0 <= i < |actions[1..]| && actions[1..][i].Delete? && actions[1..][i].file.Launch?;
          assert actions[i + 1] == actions[1..][i];
        }
      } else {
        assert actions[0].Delete? && actions[0].file.Launch?;
      }
    }
  }

  /** Between two claims of one operation a cleaner has deleted the first one's launch file. */
  lemma ClaimsNeedCleanupBetween(s: State, first: Pid, between: seq<Action>, second: Pid)
    requires Enabled(s, Claim(first)) && Legal(Do(s, Claim(first)), between)
    requires Enabled(Run(Do(s, Claim(first)), between), Claim(second))
    ensures DeletesLaunch(between)
  {
    LaunchStays(Do(s, Claim(first)), between);
  }

  /** While a worker lives and has not closed it, the lock is the worker's: nobody can
      acquire it and no cleaner is in a position to delete anything. */
  lemma WorkerExcludesCleanup(actions: seq<Action>, worker: Pid, other: Pid, file: File, role: Role)
    requires Legal(INITIAL, actions)
    requires worker in Run(INITIAL, actions).processes && Run(INITIAL, actions).processes[worker].Worker?
    ensures var s := Run(INITIAL, actions);
      s.owner == Some(s.processes[worker].description) && !Enabled(s, Acquire(other, role)) && !Enabled(s, Delete(other, file))
  {
    InvHolds(INITIAL, actions);
  }

  /** A description owns the lock at most once: after losing it, never again. */
  lemma {:induction false} LostForGood(s: State, actions: seq<Action>, d: Description)
    requires Inv(s) && Legal(s, actions) && d < |s.roles| && s.owner != Some(d)
    ensures Run(s, actions).owner != Some(d)
    decreases |actions|
  {
    if actions != [] {
      InvStep(s, actions[0]);
      LostForGood(Do(s, actions[0]), actions[1..], d);
    }
  }

  /** The lock passes from the starter's acquisition to its worker's close without a gap: if
      the description that owned it at one moment belongs to a worker at a later one, it
      owned the lock at every moment between. */
  lemma {:induction false} NoGap(s: State, before: seq<Action>, after: seq<Action>, d: Description, worker: Pid)
    requires Inv(s) && s.owner == Some(d)
    requires Legal(s, before) && Legal(Run(s, before), after)
    requires
      var end := Run(Run(s, before), after);
      worker in end.processes && end.processes[worker].Worker? && end.processes[worker].description == d
    ensures Run(s, before).owner == Some(d)
  {
    var midway := Run(s, before);
    InvHolds(s, before);
    InvHolds(midway, after);
    assert d < |s.roles|;
    RolesGrow(s, before);
    if midway.owner != Some(d) {
      LostForGood(midway, after, d);
    }
  }

  lemma {:induction false} RolesGrow(s: State, actions: seq<Action>)
    requires Legal(s, actions)
    ensures |s.roles| <= |Run(s, actions).roles|
    decreases |actions|
  {
    if actions != [] { RolesGrow(Do(s, actions[0]), actions[1..]); }
  }

  /** A run can be taken one action at a time. */
  lemma OneMore(s: State, a: Action, rest: seq<Action>)
    requires Enabled(s, a) && Legal(Do(s, a), rest)
    ensures Legal(s, [a] + rest) && Run(s, [a] + rest) == Run(Do(s, a), rest)
  {
    assert ([a] + rest)[1..] == rest;
  }

  const LAUNCHED := State(
    map[0 := Starter(Spawned, 0), 1 := Worker(Inherited, 0, 0)], Some(0), [ForStart], {Launch}, [1])
  const ABANDONED := State(map[1 := Adrift(0), 2 := Cleaner(1)], Some(1), [ForStart, ForCleanup], {Launch}, [1])

  lemma ReachLaunched(rest: seq<Action>) returns (actions: seq<Action>)
    requires Legal(LAUNCHED, rest)
    ensures Legal(INITIAL, actions) && Run(INITIAL, actions) == Run(LAUNCHED, rest)
  {
    var s1 := Do(INITIAL, Acquire(0, ForStart));
    assert s1.processes == map[0 := Starter(Holding, 0)];
    var s2 := Do(s1, CheckUnstarted(0));
    assert s2.processes == map[0 := Starter(Checked, 0)];
    var s3 := Do(s2, Claim(0));
    assert s3.processes == map[0 := Starter(HasClaim(0), 0)];
    assert Do(s3, Spawn(0, 1)) == LAUNCHED;
    OneMore(s3, Spawn(0, 1), rest);
    OneMore(s2, Claim(0), [Spawn(0, 1)] + rest);
    OneMore(s1, CheckUnstarted(0), [Claim(0)] + ([Spawn(0, 1)] + rest));
    actions := [Acquire(0, ForStart)] + ([CheckUnstarted(0)] + ([Claim(0)] + ([Spawn(0, 1)] + rest)));
    OneMore(INITIAL, Acquire(0, ForStart), [CheckUnstarted(0)] + ([Claim(0)] + ([Spawn(0, 1)] + rest)));
  }

  lemma ReachAbandoned() returns (actions: seq<Action>)
    ensures Legal(INITIAL, actions) && Run(INITIAL, actions) == ABANDONED
  {
    var s5 := Do(LAUNCHED, Exit(0));
    assert s5.processes == map[1 := Worker(Inherited, 0, 0)];
    assert s5.owner == Some(0) by { assert s5.processes[1].HasLock(); }
    var s6 := Do(s5, AdoptFails(1));
    assert s6.processes == map[1 := Adrift(0)] && s6.owner == None;
    var s7 := Do(s6, Acquire(2, ForCleanup));
    assert s7.processes == map[1 := Adrift(0), 2 := Cleaner(1)];
    assert s7 == ABANDONED && Legal(s7, []);
    OneMore(s6, Acquire(2, ForCleanup), []);
    OneMore(s5, AdoptFails(1), [Acquire(2, ForCleanup)] + []);
    OneMore(LAUNCHED, Exit(0), [AdoptFails(1)] + ([Acquire(2, ForCleanup)] + []));
    actions := ReachLaunched([Exit(0)] + ([AdoptFails(1)] + ([Acquire(2, ForCleanup)] + [])));
  }

  /** The exception: a worker whose adoption failed has closed the descriptor, so a cleaner
      can delete the operation's files while that process lives, and its status then
      appears in an operation without a claim. */
  lemma UnadoptedWorkerOutlivesCleanup() returns (actions: seq<Action>, worker: Pid, cleaner: Pid)
    ensures Legal(INITIAL, actions)
    ensures
      var s := Run(INITIAL, actions);
      && worker in s.processes && s.processes[worker].IsWorker() && Launch in s.files && Enabled(s, Delete(cleaner, Launch))
      && var later := Do(s, Delete(cleaner, Launch));
         Enabled(later, WriteStatus(worker)) && Do(later, WriteStatus(worker)).files == {Status}
  {
    actions := ReachAbandoned();
    worker, cleaner := 1, 2;
    var later := Do(ABANDONED, Delete(2, Launch));
    assert later.files == {} && Do(later, WriteStatus(1)).files == {Status};
  }

  // ----- exactly when cleanup can meet a living worker process

  ghost predicate ActsNot(pid: Pid, actions: seq<Action>) {
    forall i :: 0 <= i < |actions| ==> actions[i].pid != pid
  }

  /** The others can go on, without this process doing anything, to a moment at which some
      cleaner is about to delete the file. */
  ghost predicate CleanupCanCome(s: State, pid: Pid, file: File) {
    exists actions, cleaner ::
      Legal(s, actions) && ActsNot(pid, actions) && Enabled(Run(s, actions), Delete(cleaner, file))
  }

  /** Nobody else moves a process. */
  lemma {:induction false} LeftAlone(s: State, actions: seq<Action>, pid: Pid)
    requires Legal(s, actions) && ActsNot(pid, actions) && pid in s.processes
    ensures pid in Run(s, actions).processes && Run(s, actions).processes[pid] == s.processes[pid]
    decreases |actions|
  {
    if actions != [] {
      assert actions[0].pid != pid;
      assert forall i :: 0 <= i < |actions[1..]| ==> actions[1..][i] == actions[i + 1];
      LeftAlone(Do(s, actions[0]), actions[1..], pid);
    }
  }

  function Holders(s: State): set<Pid> { set p | p in s.processes && s.processes[p].HasLock() }

  /** Whoever has the lock may die, one after the other, until it is free. */
  lemma {:induction false} CanFree(s: State, pid: Pid) returns (actions: seq<Action>)
    requires LockInv(s) && pid in s.processes && !s.processes[pid].HasLock()
    ensures Legal(s, actions) && ActsNot(pid, actions) && Run(s, actions).owner.None?
    decreases |Holders(s)|
  {
    if s.owner.None? { return []; }
    var p :| p in s.processes && s.processes[p].HasLock() && s.processes[p].description == s.owner.value;
    var s' := Do(s, Exit(p));
    LockStep(s, Exit(p));
    assert Holders(s') == Holders(s) - {p} && p in Holders(s);
    var rest := CanFree(s', pid);
    OneMore(s, Exit(p), rest);
    actions := [Exit(p)] + rest;
  }

  lemma {:induction false} FreshPid(used: set<Pid>) returns (unused: Pid)
    ensures forall p <- used :: p < unused
    decreases |used|
  {
    if used == {} { return 0; }
    var p :| p in used;
    var others := FreshPid(used - {p});
    unused := if others <= p then p + 1 else others;
    forall q <- used ensures q < unused { assert q == p || q in used - {p}; }
  }

  lemma {:induction false} TwoRuns(s: State, a: seq<Action>, b: seq<Action>)
    requires Legal(s, a) && Legal(Run(s, a), b)
    ensures Legal(s, a + b) && Run(s, a + b) == Run(Run(s, a), b)
    decreases |a|
  {
    if a == [] {
      assert a + b == b;
    } else {
      assert (a + b)[1..] == a[1..] + b;
      TwoRuns(Do(s, a[0]), a[1..], b);
    }
  }

  lemma UnlockedCanBeMet(s: State, worker: Pid, file: File)
    requires LockInv(s) && worker in s.processes && !s.processes[worker].HasLock()
    ensures CleanupCanCome(s, worker, file)
  {
    var freed := CanFree(s, worker);
    var free := Run(s, freed);
    LeftAlone(s, freed, worker);
    var cleaner := FreshPid(free.processes.Keys);
    assert cleaner !in free.processes && cleaner != worker;
    var taken := Do(free, Acquire(cleaner, ForCleanup));
    assert Legal(taken, []);
    OneMore(free, Acquire(cleaner, ForCleanup), []);
    TwoRuns(s, freed, [Acquire(cleaner, ForCleanup)] + []);
    var actions := freed + ([Acquire(cleaner, ForCleanup)] + []);
    assert ActsNot(worker, actions);
    assert Enabled(Run(s, actions), Delete(cleaner, file));
  }

  lemma LockedCannotBeMet(s: State, worker: Pid, file: File)
    requires Inv(s) && worker in s.processes && s.processes[worker].Worker?
    ensures !CleanupCanCome(s, worker, file)
  {
    forall actions, cleaner | Legal(s, actions) && ActsNot(worker, actions)
      ensures !Enabled(Run(s, actions), Delete(cleaner, file))
    {
      InvHolds(s, actions);
      LeftAlone(s, actions, worker);
    }
  }

  /** In every reachable state and for every file, cleanup can come while a worker process
      lives and does nothing if and only if that process has no lock: its adoption failed, or
      it has closed the lock after its status. */
  lemma CleanupMeetsOnlyUnlockedWorkers(run: seq<Action>, worker: Pid, file: File)
    requires Legal(INITIAL, run)
    requires worker in Run(INITIAL, run).processes && Run(INITIAL, run).processes[worker].IsWorker()
    ensures var s := Run(INITIAL, run);
      CleanupCanCome(s, worker, file) <==> s.processes[worker].Adrift? || s.processes[worker].Closed?
  {
    var s := Run(INITIAL, run);
    InvHolds(INITIAL, run);
    if s.processes[worker].Worker? {
      LockedCannotBeMet(s, worker, file);
    } else {
      UnlockedCanBeMet(s, worker, file);
    }
  }
}
