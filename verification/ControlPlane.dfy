/** deploy/scripts/deploy_control_plane/runtime.py, release_state.py and cli.py:
    staging, finalizing and rolling back a release against a durable record, with a
    crash possible around every step and any number of later invocations. */
module ControlPlane {
  import opened Common
  import opened Base64
  import opened DatabaseInstall

  type Bytes = seq<Byte>
  type Tag = string

  /** ProductionPreflight */
  datatype Preflight = Preflight(
    version: Tag, previousEnv: Bytes, previousTag: Tag, backup: Option<nat>,
    nginxSnapshot: nat, composeSnapshot: nat, mayHaveChanged: bool, restored: bool)

  /** The content of pending.json. */
  datatype Record = Record(
    version: Tag, environment: string, previousTag: Tag, backup: Option<nat>,
    nginxSnapshot: nat, composeSnapshot: nat, mayHaveChanged: bool, restored: bool)

  /** persist_pending_release */
  function Render(p: Preflight): Record {
    Record(p.version, Encode(p.previousEnv), p.previousTag, p.backup,
           p.nginxSnapshot, p.composeSnapshot, p.mayHaveChanged, p.restored)
  }

  /** What load_pending_release makes of a record whose fields are well formed. */
  function Parse(r: Record): Option<Preflight> {
    match Decode(r.environment)
    case Some(env) =>
      if r.restored && !r.mayHaveChanged then None
      else Some(Preflight(r.version, env, r.previousTag, r.backup,
                          r.nginxSnapshot, r.composeSnapshot, r.mayHaveChanged, r.restored))
    case None => None
  }

  /** The record carries everything a rollback needs. */
  lemma ParseRender(p: Preflight)
    ensures Parse(Render(p)) == if p.restored && !p.mayHaveChanged then None else Some(p)
  {
    RoundTrip(p.previousEnv);
  }

  /** The record was left alone or rewritten with one field of its preflight changed. */
  ghost predicate Amends(after: Record, prior: Record, change: Preflight -> Preflight) {
    || after == prior
    || (Parse(prior).Some? && after == Render(change(Parse(prior).value)))
  }

  datatype Container = Container(tag: Tag, running: bool)

  /** The runtime files a rollback has to reproduce. */
  datatype Runtime = Runtime(environment: Bytes, compose: Bytes, nginx: Bytes)

  /** Milestones of the production host.  `StagedUp` and `PreviousUp` are the moments
      from which the staged or the previous container may accept writes. */
  datatype Event = StagedUp | Replaced | PreviousUp | Closed

  /** A rollback of the release that is still open has let the previous container start. */
  ghost predicate Started(history: seq<Event>) {
    history != [] &&
    match history[|history| - 1]
    case PreviousUp => true
    case Closed => false
    case _ => Started(history[..|history| - 1])
  }

  /** No backup is replayed over a database the previous container may have written. */
  ghost predicate NoReplay(history: seq<Event>) {
    forall i :: 0 <= i < |history| && history[i] == Replaced ==> !Started(history[..i])
  }

  /** The previous container was started at i and the release has not been closed since. */
  ghost predicate StartedAt(history: seq<Event>, i: int) {
    0 <= i < |history| && history[i] == PreviousUp && forall k :: i < k < |history| ==> history[k] != Closed
  }

  lemma {:induction false} StartedMeans(history: seq<Event>)
    ensures Started(history) <==> exists i :: StartedAt(history, i)
  {
    if history != [] {
      var n := |history| - 1;
      var init := history[..n];
      StartedMeans(init);
      forall i | 0 <= i < n ensures StartedAt(history, i) <==> StartedAt(init, i) && history[n] != Closed {
        assert forall k :: 0 <= k < n ==> init[k] == history[k];
      }
      if Started(init) && history[n] != Closed {
        var i :| StartedAt(init, i);
        assert StartedAt(history, i);
      }
      if history[n] == PreviousUp { assert StartedAt(history, n); }
    }
  }

  /** The same, said of pairs of events: between a start of the previous container and
      a later replacement of the database the release was closed. */
  lemma NoReplayMeans(history: seq<Event>)
    ensures NoReplay(history) <==>
      forall i, j :: 0 <= i < j < |history| && history[i] == PreviousUp && history[j] == Replaced ==>
        exists k :: i < k < j && history[k] == Closed
  {
    if NoReplay(history) {
      forall i, j | 0 <= i < j < |history| && history[i] == PreviousUp && history[j] == Replaced
        ensures exists k :: i < k < j && history[k] == Closed
      {
        StartedMeans(history[..j]);
        assert !StartedAt(history[..j], i);
      }
    } else {
      var j :| 0 <= j < |history| && history[j] == Replaced && Started(history[..j]);
      StartedMeans(history[..j]);
      var i :| StartedAt(history[..j], i);
      assert history[i] == PreviousUp && forall k :: i < k < j ==> history[k] == history[..j][k];
    }
  }

  lemma HistoryGrows(history: seq<Event>, event: Event)
    requires NoReplay(history) && (event == Replaced ==> !Started(history))
    ensures NoReplay(history + [event])
    ensures Started(history + [event]) ==
      match event { case PreviousUp => true case Closed => false case _ => Started(history) }
  {
    var grown := history + [event];
    assert grown[..|history|] == history;
    assert forall i :: 0 <= i < |history| ==> grown[..i] == history[..i];
  }

  /** The database content a record stands for: one image, or the absence of a database. */
  function Wanted(backups: map<nat, Content>, backup: Option<nat>): Option<Triple> {
    match backup
    case None => Some(map[])
    case Some(id) => if id in backups then Some(ImageAlone(backups[id])) else None
  }

  /** The greatest of some names. */
  method Greatest(names: set<nat>) returns (name: nat)
    requires names != {}
    ensures name in names && forall id <- names :: id <= name
  {
    name :| name in names;
    var left := names - {name};
    while left != {}
      invariant left <= names && name in names && forall id <- names :: id in left || id <= name
      decreases |left|
    {
      var id :| id in left;
      left := left - {id};
      if name < id { name := id; }
    }
  }

  /** A name that is not taken: mkstemp's, or that of a later time stamp. */
  method FreshName(used: set<nat>) returns (name: nat)
    ensures forall id <- used :: id < name
  {
    if used == {} { return 0; }
    name := Greatest(used);
    name := name + 1;
  }

  const BACKUP_LIMIT := 10

  /** The names are the newest of these, as many as the limit allows. */
  ghost predicate Newest(kept: set<nat>, all: set<nat>) {
    && kept <= all && |kept| == (if |all| <= BACKUP_LIMIT then |all| else BACKUP_LIMIT)
    && forall gone <- all, id <- kept :: gone in kept || gone < id
  }

  /** A backup survives the pruning exactly when fewer than the limit are newer. */
  lemma NewestStays(kept: set<nat>, all: set<nat>, id: nat)
    requires Newest(kept, all) && id in all
    ensures id in kept <==> |set other | other in all && other > id| < BACKUP_LIMIT
  {
    var newer := set other | other in all && other > id;
    if id in kept {
      SubsetSize(newer + {id}, kept);
    } else {
      SubsetSize(kept, all);
      SubsetSize(kept, newer);
    }
  }

  /** sorted(names, reverse=True), cut at the limit. */
  method SplitNewest(names: set<nat>) returns (kept: set<nat>, rest: set<nat>)
    ensures Newest(kept, names) && rest == names - kept
  {
    kept, rest := {}, names;
    while rest != {} && |kept| < BACKUP_LIMIT
      invariant kept <= names && rest == names - kept && |kept| <= BACKUP_LIMIT
      invariant forall gone <- names, id <- kept :: gone in kept || gone < id
      decreases |rest|
    {
      var id := Greatest(rest);
      assert forall gone <- names :: gone in kept || gone == id || gone < id by {
        assert forall gone <- names :: gone in kept || gone in rest;
      }
      kept, rest := kept + {id}, rest - {id};
    }
    assert rest == {} ==> kept == names;
    if |kept| == BACKUP_LIMIT { SubsetSize(kept, names); }
  }

  class Production {
    var environment: Bytes
    var compose: Bytes
    var nginx: Bytes
    var pending: Option<Record>
    var snapshots: map<nat, Bytes>
    var backups: map<nat, Content>
    var container: Option<Container>
    /** The configuration Nginx was last told to load. */
    var loadedNginx: Bytes
    /** The image tags Docker has. */
    var images: set<Tag>
    const data: DataDirectory

    /** The image tag an environment file names, if it parses. */
    const tagOf: Bytes -> Option<Tag>
    /** The self-contained image that SQLite's online backup makes of a live database. */
    const materialize: Triple -> Content
    /** How many steps may still fail, crash or miss a running release, beside those on the
        database files. */
    var faultsLeft: nat

    /** The process at work has died. */
    ghost var crashed: bool
    ghost var history: seq<Event>
    /** The runtime files when the latest stage began. */
    ghost var before: Runtime
    /** The container may be one that the open stage started. */
    ghost var staged: bool

    /** A record implies everything a rollback will read. */
    ghost predicate RecordSound()
      reads this
    {
      pending.Some? ==>
        var r := pending.value;
        && Decode(r.environment) == Some(before.environment)
        && tagOf(before.environment) == Some(r.previousTag) && r.previousTag in images
        && r.nginxSnapshot in snapshots && snapshots[r.nginxSnapshot] == before.nginx
        && r.composeSnapshot in snapshots && snapshots[r.composeSnapshot] == before.compose
        && (r.backup.Some? ==> r.backup.value in backups)
        && (r.restored ==> r.mayHaveChanged)
    }

    /** The durable flags are ahead of everything the containers can do. */
    ghost predicate PhaseSound()
      reads this, data
    {
      && NoReplay(history)
      && (staged ==> pending.Some? && pending.value.mayHaveChanged)
      && (Started(history) ==> pending.Some? && pending.value.restored)
      && (pending.Some? && pending.value.restored && !Started(history) ==>
            && container.None?
            && Wanted(backups, pending.value.backup) == Some(LiveFiles(data.files)))
    }

    ghost predicate Valid()
      reads this, data
    {
      RecordSound() && PhaseSound()
    }

    ghost predicate FilesAsBefore()
      reads this
    {
      Runtime(environment, compose, nginx) == before
    }

    /** The runtime files are those the stage found, and Nginx uses its own. */
    ghost predicate Restored()
      reads this
    {
      FilesAsBefore() && loadedNginx == nginx
    }

    constructor (
      environment: Bytes, compose: Bytes, nginx: Bytes, container: Option<Container>, images: set<Tag>,
      data: DataDirectory, tagOf: Bytes -> Option<Tag>, materialize: Triple -> Content, faults: nat)
      ensures this.environment == environment && this.compose == compose && this.nginx == nginx
      ensures this.data == data && this.tagOf == tagOf && faultsLeft == faults && this.container == container && this.images == images
      ensures pending.None? && snapshots == map[] && history == [] && Valid() && !crashed
    {
      this.environment, this.compose, this.nginx := environment, compose, nginx;
      this.container, this.data, this.tagOf, this.materialize, faultsLeft := container, data, tagOf, materialize, faults;
      pending, snapshots, backups, this.images, loadedNginx := None, map[], map[], images, nginx;
      history, before, staged, crashed := [], Runtime(environment, compose, nginx), false, false;
    }

    ghost predicate Dead()
      reads this, data
    {
      crashed || data.crashed
    }

    ghost function Faults(): nat
      reads this, data
    {
      faultsLeft + data.faultsLeft
    }

    /** Success takes no fault, anything else takes one at least. */
    twostate predicate Blames(success: bool)
      reads this, data
    {
      if success then Faults() == old(Faults()) else Faults() < old(Faults())
    }

    // ----- single steps of the outside world

    /** One step of a living process. */
    method Attempt() returns (fate: Fate)
      requires !Dead()
      modifies `faultsLeft, `crashed
      ensures Dead() <==> fate.Crashed?
      ensures Blames(fate.Done?)
    {
      fate, faultsLeft := Chance(faultsLeft);
      crashed := fate.Crashed?;
    }

    method WriteEnvironment(content: Bytes) returns (fate: Fate)
      requires !Dead()
      modifies `environment, `faultsLeft, `crashed
      ensures Dead() <==> fate.Crashed?
      ensures fate.Done? ==> environment == content
      ensures environment == content || environment == old(environment)
      ensures Blames(fate.Done?)
    {
      fate := Attempt();
      var effect: bool := *;
      if fate.Done? || effect { environment := content; }
    }

    method WriteCompose(content: Bytes) returns (fate: Fate)
      requires !Dead()
      modifies `compose, `faultsLeft, `crashed
      ensures Dead() <==> fate.Crashed?
      ensures fate.Done? ==> compose == content
      ensures compose == content || compose == old(compose)
      ensures Blames(fate.Done?)
    {
      fate := Attempt();
      var effect: bool := *;
      if fate.Done? || effect { compose := content; }
    }

    method WriteNginx(content: Bytes) returns (fate: Fate)
      requires !Dead()
      modifies `nginx, `faultsLeft, `crashed
      ensures Dead() <==> fate.Crashed?
      ensures fate.Done? ==> nginx == content
      ensures nginx == content || nginx == old(nginx)
      ensures Blames(fate.Done?)
    {
      fate := Attempt();
      var effect: bool := *;
      if fate.Done? || effect { nginx := content; }
    }

    /** nginx -t and systemctl reload nginx */
    method ReloadNginx() returns (fate: Fate)
      requires !Dead()
      modifies `loadedNginx, `faultsLeft, `crashed
      ensures Dead() <==> fate.Crashed?
      ensures fate.Done? ==> loadedNginx == nginx
      ensures loadedNginx == nginx || loadedNginx == old(loadedNginx)
      ensures Blames(fate.Done?)
    {
      fate := Attempt();
      var effect: bool := *;
      if fate.Done? || effect { loadedNginx := nginx; }
    }

    /** atomic_write_bytes(PENDING_RELEASE, ...): a failure may follow the rename. */
    method WritePending(r: Record) returns (fate: Fate)
      requires !Dead()
      modifies `pending, `faultsLeft, `crashed
      ensures Dead() <==> fate.Crashed?
      ensures fate.Done? ==> pending == Some(r)
      ensures pending == Some(r) || pending == old(pending)
      ensures Blames(fate.Done?)
    {
      fate := Attempt();
      var effect: bool := *;
      if fate.Done? || effect { pending := Some(r); }
    }

    /** The containers act: a running one may write the database, stop or restart. */
    method Containers(live: Triple, running: bool)
      requires Valid()
      modifies `container, data`files
      ensures Valid()
      ensures old(container).None? ==> container.None? && data.files == old(data.files)
      ensures old(container).Some? ==>
        container == Some(Container(old(container).value.tag, running)) && LiveFiles(data.files) == live
      ensures forall p: Path | !p.Live? :: p in data.files <==> p in old(data.files)
    {
      if container.Some? {
        data.Serve(live);
        container := Some(container.value.(running := running));
      }
    }

    /** docker compose stop app */
    method Stop() returns (fate: Fate)
      requires Valid()
      requires !Dead()
      modifies `container, `faultsLeft, `crashed, data`files
      ensures Dead() <==> fate.Crashed?
      ensures Valid()
      ensures container.Some? <==> old(container).Some?
      ensures container.Some? ==> container.value.tag == old(container).value.tag
      ensures container.Some? && fate.Done? ==> !container.value.running
      ensures forall p: Path | !p.Live? :: p in data.files <==> p in old(data.files)
      ensures Blames(fate.Done?)
    {
      if container.Some? {
        var live: Triple := *;
        data.Serve(live);
        fate := Attempt();
        var running: bool := *;
        container := Some(container.value.(running := running && !fate.Done?));
      } else {
        fate := Attempt();
      }
    }

    /** docker compose rm --force app, after a successful stop */
    method Remove() returns (fate: Fate)
      requires Valid()
      requires !Dead()
      modifies `container, `staged, `faultsLeft, `crashed
      ensures Dead() <==> fate.Crashed?
      ensures Valid()
      ensures fate.Done? ==> container.None? && !staged
      ensures Blames(fate.Done?)
    {
      fate := Attempt();
      var effect: bool := *;
      if fate.Done? || effect { container, staged := None, false; }
    }

    /** The environment names an image that is there. */
    ghost predicate Startable()
      reads this
    {
      tagOf(environment).Some? && tagOf(environment).value in images
    }

    /** docker compose up -d: (re)creates the container the environment names.  When it
        does not report success the old or the new container may be there. */
    method Up(ghost event: Event) returns (fate: Fate)
      requires Valid()
      requires pending.Some?
      requires event == StagedUp ==> pending.value.mayHaveChanged && !pending.value.restored
      requires event == PreviousUp ==> pending.value.restored
      requires event == StagedUp || event == PreviousUp
      requires !Dead()
      modifies `container, `history, `staged, `faultsLeft, `crashed, data`files
      ensures Dead() <==> fate.Crashed?
      ensures Valid()
      ensures history == old(history) + [event] && (staged <==> old(staged) || event == StagedUp)
      ensures fate.Done? ==> container.Some? && Some(container.value.tag) == tagOf(environment)
      ensures forall p: Path | !p.Live? :: p in data.files <==> p in old(data.files)
      ensures Startable() ==> Blames(fate.Done? && container.value.running)
      ensures !Startable() ==> !fate.Done? && (fate.Failed? || Blames(false)) && faultsLeft <= old(faultsLeft)
    {
      HistoryGrows(history, event);
      history := history + [event];
      if event == StagedUp { staged := true; }
      fate := Attempt();
      var tag := tagOf(environment);
      var effect: bool := *;
      if tag.None? || tag.value !in images {
        if fate.Done? { fate := Failed; }
      } else if fate.Done? || effect {
        var health;
        health, faultsLeft := Chance(faultsLeft);
        container := Some(Container(tag.value, health.Done?));
      }
      var live: Triple := *;
      data.Serve(live);
    }

    /** A health and image probe.  It may miss a running release but never invents one. */
    method Answers(tag: Tag) returns (yes: bool)
      requires !Dead()
      modifies `faultsLeft
      ensures yes ==> container == Some(Container(tag, true))
      ensures Blames(container == Some(Container(tag, true)) ==> yes)
    {
      yes := container == Some(Container(tag, true));
      if yes {
        var probe;
        probe, faultsLeft := Chance(faultsLeft);
        yes := probe.Done?;
      }
    }

    // ----- release_state.py

    /** load_pending_release */
    method Load(version: Tag) returns (fate: Fate, p: Preflight)
      requires !Dead()
      modifies `faultsLeft, `crashed
      ensures Dead() <==> fate.Crashed?
      ensures fate.Done? ==>
        && pending.Some? && pending.value.version == version && Parse(pending.value) == Some(p)
        && tagOf(p.previousEnv) == Some(p.previousTag)
        && p.nginxSnapshot in snapshots && p.composeSnapshot in snapshots
        && (p.backup.Some? ==> p.backup.value in backups)
      ensures RecordSound() && pending.Some? && pending.value.version == version ==> Blames(fate.Done?)
      ensures faultsLeft <= old(faultsLeft) && (fate.Done? ==> faultsLeft == old(faultsLeft))
    {
      p := Preflight("", [], "", None, 0, 0, false, false);
      if pending.None? { return Failed, p; }
      var parsed := Parse(pending.value);
      if parsed.None? || pending.value.version != version { return Failed, p; }
      p := parsed.value;
      if
        || tagOf(p.previousEnv) != Some(p.previousTag)
        || p.nginxSnapshot !in snapshots || p.composeSnapshot !in snapshots
        || (p.backup.Some? && p.backup.value !in backups)
      {
        return Failed, p;
      }
      fate := Attempt();
    }

    /** mark_pending_database_may_have_changed */
    method MarkMayHaveChanged(version: Tag) returns (fate: Fate)
      requires Valid()
      requires !Dead()
      modifies `pending, `faultsLeft, `crashed
      ensures Dead() <==> fate.Crashed?
      ensures Valid()
      ensures fate.Done? ==> pending.Some? && pending.value.mayHaveChanged && pending.value.version == version
      ensures pending.Some? <==> old(pending).Some?
      ensures pending.Some? ==> Amends(pending.value, old(pending).value, (p: Preflight) => p.(mayHaveChanged := true))
      ensures pending.Some? && old(pending).value.mayHaveChanged ==> pending == old(pending)
      ensures pending.Some? && pending.value.version == version ==> Blames(fate.Done?)
      ensures faultsLeft <= old(faultsLeft) && (fate.Done? ==> faultsLeft == old(faultsLeft))
    {
      var p;
      fate, p := Load(version);
      if !fate.Done? || p.mayHaveChanged { return; }
      var updated := p.(mayHaveChanged := true);
      ParseRender(updated);
      fate := WritePending(Render(updated));
    }

    /** mark_pending_rollback_database_restored, called with no container present */
    method MarkRestored(version: Tag) returns (fate: Fate)
      requires Valid() && container.None?
      requires pending.Some? ==> Wanted(backups, pending.value.backup) == Some(LiveFiles(data.files))
      requires !Dead()
      modifies `pending, `faultsLeft, `crashed
      ensures Dead() <==> fate.Crashed?
      ensures Valid()
      ensures fate.Done? ==> pending.Some? && pending.value.restored
      ensures pending.Some? <==> old(pending).Some?
      ensures pending.Some? ==> Amends(pending.value, old(pending).value, (p: Preflight) => p.(restored := true))
      ensures pending.Some? && (old(pending).value.restored || !old(pending).value.mayHaveChanged) ==> pending == old(pending)
      ensures pending.Some? && pending.value.version == version && pending.value.mayHaveChanged ==> Blames(fate.Done?)
      ensures faultsLeft <= old(faultsLeft) && (fate.Done? ==> faultsLeft == old(faultsLeft))
    {
      var p;
      fate, p := Load(version);
      if !fate.Done? { return; }
      if !p.mayHaveChanged { return Failed; }
      if p.restored { return; }
      var updated := p.(restored := true);
      ParseRender(updated);
      fate := WritePending(Render(updated));
    }

    /** cleanup_snapshot_paths: tries every path and reports whether all went. */
    method CleanupSnapshots(names: seq<nat>) returns (exit: Exit<bool>)
      requires !Dead()
      modifies `snapshots, `faultsLeft, `crashed
      ensures Dead() <==> exit.Died?
      ensures snapshots.Keys <= old(snapshots).Keys
      ensures forall id <- snapshots :: snapshots[id] == old(snapshots)[id]
      ensures forall id <- old(snapshots) :: id !in names ==> id in snapshots
      ensures exit == Returned(true) ==> snapshots == old(snapshots) - set id <- names
      ensures exit != Raised
      ensures Blames(exit == Returned(true))
    {
      var cleaned := true;
      for i := 0 to |names|
        invariant snapshots.Keys <= old(snapshots).Keys
        invariant forall id <- snapshots :: snapshots[id] == old(snapshots)[id]
        invariant forall id <- old(snapshots) :: id !in names[..i] ==> id in snapshots
        invariant cleaned ==> forall id <- names[..i] :: id !in snapshots
        invariant Blames(cleaned) && !Dead()
      {
        assert names[..i + 1] == names[..i] + [names[i]];
        var fate := UnlinkSnapshot(names[i]);
        if fate.Crashed? { return Died; }
        if fate.Failed? { cleaned := false; }
      }
      assert names[..|names|] == names;
      if cleaned { assert snapshots == old(snapshots) - set id <- names; }
      var fate := Attempt();
      exit := if fate.Crashed? then Died else Returned(cleaned && fate.Done?);
    }

    /** close_pending_release: the record goes first, then the snapshots it named. */
    method Close(p: Preflight) returns (fate: Fate)
      requires Valid() && pending.Some?
      requires !Dead()
      modifies `pending, `snapshots, `history, `staged, `faultsLeft, `crashed
      ensures Dead() <==> fate.Crashed?
      ensures Valid()
      ensures fate.Done? ==> pending.None? && !staged && snapshots == old(snapshots) - {p.nginxSnapshot, p.composeSnapshot}
      ensures pending == old(pending) || pending.None?
      ensures history == old(history) || history == old(history) + [Closed]
      ensures Blames(fate.Done?)
    {
      HistoryGrows(history, Closed);
      fate := Attempt();
      var effect: bool := *;
      if fate.Done? || effect {
        pending, history, staged := None, history + [Closed], false;
      }
      if !fate.Done? { return; }
      var exit := CleanupSnapshots([p.nginxSnapshot, p.composeSnapshot]);
      fate := if exit == Returned(true) then Done else if exit == Died then Crashed else Failed;
      assert (set id <- [p.nginxSnapshot, p.composeSnapshot]) == {p.nginxSnapshot, p.composeSnapshot};
    }

    /** The snapshots the record names. */
    ghost function Referenced(): set<nat>
      reads this
    {
      if pending.Some? then {pending.value.nginxSnapshot, pending.value.composeSnapshot} else {}
    }

    /** cleanup_abandoned_runtime_snapshots */
    method CleanupAbandoned() returns (fate: Fate)
      requires Valid()
      requires !Dead()
      modifies `snapshots, `faultsLeft, `crashed
      ensures Dead() <==> fate.Crashed?
      ensures Valid()
      ensures fate.Done? ==> snapshots.Keys == Referenced()
      ensures Referenced() <= snapshots.Keys <= old(snapshots).Keys
      ensures Blames(fate.Done?)
    {
      var keep: set<nat> := {};
      if pending.Some? {
        var p;
        fate, p := Load(pending.value.version);
        if !fate.Done? { return; }
        keep := {p.nginxSnapshot, p.composeSnapshot};
      }
      fate := DropSnapshotsExcept(keep);
    }

    /** The loop over the directory entries. */
    method DropSnapshotsExcept(keep: set<nat>) returns (fate: Fate)
      requires !Dead()
      modifies `snapshots, `faultsLeft, `crashed
      ensures Dead() <==> fate.Crashed?
      ensures fate.Done? ==> snapshots.Keys <= keep
      ensures old(snapshots).Keys * keep <= snapshots.Keys <= old(snapshots).Keys
      ensures forall id <- snapshots :: snapshots[id] == old(snapshots)[id]
      ensures Blames(fate.Done?)
    {
      var left := snapshots.Keys;
      while left != {}
        invariant left <= snapshots.Keys <= old(snapshots).Keys && old(snapshots).Keys * keep <= snapshots.Keys <= left + keep
        invariant faultsLeft == old(faultsLeft) && !Dead()
        invariant forall id <- snapshots :: snapshots[id] == old(snapshots)[id]
        decreases |left|
      {
        var id :| id in left;
        left := left - {id};
        if id !in keep {
          fate := UnlinkSnapshot(id);
          if !fate.Done? { return; }
        }
      }
      fate := Attempt();              // fsync of the directory
    }

    method UnlinkSnapshot(id: nat) returns (fate: Fate)
      requires !Dead()
      modifies `snapshots, `faultsLeft, `crashed
      ensures Dead() <==> fate.Crashed?
      ensures fate.Done? ==> snapshots == old(snapshots) - {id}
      ensures snapshots == old(snapshots) || snapshots == old(snapshots) - {id}
      ensures Blames(fate.Done?)
    {
      fate := Attempt();
      var effect: bool := *;
      if fate.Done? || (fate.Crashed? && effect) { snapshots := snapshots - {id}; }
    }

    // ----- runtime.py: the way back

    /** restore_compose */
    method RestoreCompose(snapshot: nat) returns (exit: Exit<bool>)
      requires !Dead()
      modifies `compose, `faultsLeft, `crashed
      ensures Dead() <==> exit.Died?
      ensures compose == old(compose) || (snapshot in snapshots && compose == snapshots[snapshot])
      ensures exit == Returned(true) ==> snapshot in snapshots && compose == snapshots[snapshot]
      ensures if snapshot in snapshots then Blames(exit == Returned(true)) else Blames(true)
    {
      if snapshot !in snapshots { return Returned(false); }
      var fate := WriteCompose(snapshots[snapshot]);
      var caught: bool := *;
      exit := if fate.Done? then Returned(true) else if fate.Crashed? then Died
              else if caught then Returned(false) else Raised;
    }

    /** restore_nginx: the file, the configuration test and the reload */
    method RestoreNginx(snapshot: nat) returns (exit: Exit<bool>)
      requires !Dead()
      modifies `nginx, `loadedNginx, `faultsLeft, `crashed
      ensures Dead() <==> exit.Died?
      ensures nginx == old(nginx) || (snapshot in snapshots && nginx == snapshots[snapshot])
      ensures exit == Returned(true) ==> snapshot in snapshots && nginx == snapshots[snapshot] == loadedNginx
      ensures if snapshot in snapshots then Blames(exit == Returned(true)) else Blames(true)
    {
      if snapshot !in snapshots { return Returned(false); }
      var fate := WriteNginx(snapshots[snapshot]);
      var caught: bool := *;
      if !fate.Done? {
        return if fate.Crashed? then Died else if caught then Returned(false) else Raised;
      }
      fate := ReloadNginx();
      exit := if fate.Done? then Returned(true) else if fate.Crashed? then Died else Returned(false);
    }

    /** Each runtime file is as it was or as the preflight has it. */
    twostate predicate Between(p: Preflight)
      reads this
    {
      && (environment == old(environment) || environment == p.previousEnv)
      && (compose == old(compose) || (p.composeSnapshot in snapshots && compose == snapshots[p.composeSnapshot]))
      && (nginx == old(nginx) || (p.nginxSnapshot in snapshots && nginx == snapshots[p.nginxSnapshot]))
    }

    /** The three restorations both rollback paths begin with.  Each is attempted
        even when an earlier one failed. */
    method RestoreFiles(p: Preflight) returns (exit: Exit<bool>)
      requires !Dead()
      modifies `environment, `compose, `nginx, `loadedNginx, `faultsLeft, `crashed
      ensures Dead() <==> exit.Died?
      ensures Between(p)
      ensures exit == Returned(true) ==>
        && environment == p.previousEnv
        && p.composeSnapshot in snapshots && compose == snapshots[p.composeSnapshot]
        && p.nginxSnapshot in snapshots && nginx == snapshots[p.nginxSnapshot] == loadedNginx
      ensures p.composeSnapshot in snapshots && p.nginxSnapshot in snapshots ==> Blames(exit == Returned(true))
      ensures faultsLeft <= old(faultsLeft)
    {
      var fate := WriteEnvironment(p.previousEnv);
      if fate.Crashed? { return Died; }
      var composeExit := RestoreCompose(p.composeSnapshot);
      if composeExit == Raised || composeExit == Died { return composeExit; }
      exit := RestoreNginx(p.nginxSnapshot);
      if exit == Returned(true) { exit := Returned(fate.Done? && composeExit == Returned(true)); }
    }

    /** The loaded preflight is what the durable record says. */
    ghost predicate Recorded(p: Preflight)
      reads this
    {
      pending.Some? && pending.value.version == p.version && Parse(pending.value) == Some(p)
    }

    /** restore_pre_runtime_state */
    method RestorePreRuntime(p: Preflight) returns (fate: Fate)
      requires !Dead()
      modifies `environment, `compose, `nginx, `loadedNginx, `faultsLeft, `crashed
      ensures Dead() <==> fate.Crashed?
      ensures Between(p)
      ensures fate.Done? ==>
        && environment == p.previousEnv
        && p.composeSnapshot in snapshots && compose == snapshots[p.composeSnapshot]
        && p.nginxSnapshot in snapshots && nginx == snapshots[p.nginxSnapshot] == loadedNginx
        && container == Some(Container(p.previousTag, true))
      ensures
        (&& p.composeSnapshot in snapshots && p.nginxSnapshot in snapshots
         && tagOf(p.previousEnv) == Some(p.previousTag)
         && container == Some(Container(p.previousTag, true))) ==> Blames(fate.Done?)
      ensures faultsLeft <= old(faultsLeft)
    {
      var exit := RestoreFiles(p);
      if exit == Died { return Crashed; }
      if exit != Returned(true) { return Failed; }
      var matches := Answers(p.previousTag);
      fate := if matches && tagOf(environment) == Some(p.previousTag) then Done else Failed;
    }

    /** The database part of rollback_runtime, after the container is gone: restore unless
        the record says it was done, and record it before anything can write again. */
    method RestoreAndMark(p: Preflight, token: nat) returns (exit: Exit<bool>)
      requires Valid() && Recorded(p) && p.mayHaveChanged && container.None?
      requires !Dead()
      modifies `pending, `history, `faultsLeft, `crashed, data
      ensures Dead() <==> exit.Died?
      ensures Valid() && old(history) <= history
      ensures exit == Returned(true) ==> pending.Some? && pending.value.restored
      ensures pending.Some? && pending.value.version == p.version
      ensures Amends(pending.value, old(pending).value, (q: Preflight) => q.(restored := true))
      ensures !p.restored ==> history == old(history) + [Replaced]
      ensures p.restored ==>
        exit == Returned(true) && history == old(history) && data.files == old(data.files) && pending == old(pending)
      ensures NoArtifacts(old(data.files)) ==> Blames(exit == Returned(true))
      ensures Calmer() && (exit == Returned(true) ==> Faults() == old(Faults()))
    {
      if p.restored { return Returned(true); }
      HistoryGrows(history, Replaced);
      history := history + [Replaced];
      var image := if p.backup.Some? then Some(backups[p.backup.value]) else None;
      ghost var verified;
      exit, verified := data.RestoreDatabase(image, true, token);
      if exit != Returned(true) { return; }
      var fate := MarkRestored(p.version);
      exit := if fate.Done? then Returned(true) else if fate.Failed? then Raised else Died;
    }

    /** No fault comes back, and without faults on the database files no artifact appears. */
    twostate predicate Calmer()
      reads this, data
    {
      && faultsLeft <= old(faultsLeft) && data.faultsLeft <= old(data.faultsLeft)
      && (old(data.faultsLeft) == 0 && NoArtifacts(old(data.files)) ==> NoArtifacts(data.files))
    }

    /** rollback_runtime */
    method RollbackRuntime(p: Preflight, token: nat) returns (fate: Fate)
      requires Valid() && Recorded(p) && p.mayHaveChanged
      requires !Dead()
      modifies `environment, `compose, `nginx, `loadedNginx, `pending, `container, `history, `staged, `faultsLeft, `crashed, data
      ensures Dead() <==> fate.Crashed?
      ensures Valid() && old(history) <= history
      ensures pending.Some? && pending.value.version == p.version
      ensures Amends(pending.value, old(pending).value, (q: Preflight) => q.(restored := true))
      ensures fate.Done? ==>
        Restored() && container == Some(Container(p.previousTag, true)) && pending.value.restored
      ensures NoArtifacts(old(data.files)) ==> Blames(fate.Done?)
      ensures Calmer()
    {
      var exit := RestoreFiles(p);
      if exit == Died { return Crashed; }
      if exit != Returned(true) { return Failed; }
      fate := RestoreAndStart(p, token);
    }

    /** The database goes back, the mark is set, the previous release starts: in this order. */
    method RestoreAndStart(p: Preflight, token: nat) returns (fate: Fate)
      requires Valid() && Recorded(p) && p.mayHaveChanged && tagOf(environment) == Some(p.previousTag)
      requires !Dead()
      modifies `pending, `container, `history, `staged, `faultsLeft, `crashed, data
      ensures Dead() <==> fate.Crashed?
      ensures Valid() && old(history) <= history
      ensures pending.Some? && pending.value.version == p.version
      ensures Amends(pending.value, old(pending).value, (q: Preflight) => q.(restored := true))
      ensures fate.Done? ==> container == Some(Container(p.previousTag, true)) && pending.value.restored
      ensures NoArtifacts(old(data.files)) ==> Blames(fate.Done?)
      ensures Calmer()
    {
      fate := RestoreOffline(p, token);
      if !fate.Done? { return; }
      fate := StartPrevious(p.previousTag);
    }

    /** The database goes back while no container is there. */
    method RestoreOffline(p: Preflight, token: nat) returns (fate: Fate)
      requires Valid() && Recorded(p) && p.mayHaveChanged
      requires !Dead()
      modifies `pending, `container, `history, `staged, `faultsLeft, `crashed, data
      ensures Dead() <==> fate.Crashed?
      ensures Valid() && old(history) <= history
      ensures pending.Some? && pending.value.version == p.version
      ensures Amends(pending.value, old(pending).value, (q: Preflight) => q.(restored := true))
      ensures fate.Done? ==> pending.value.restored
      ensures NoArtifacts(old(data.files)) ==> Blames(fate.Done?)
      ensures Calmer() && (fate.Done? ==> Faults() == old(Faults()))
    {
      fate := TakeDown();
      if !fate.Done? { return; }
      var exit := RestoreAndMark(p, token);
      fate := if exit == Returned(true) then Done else if exit == Died then Crashed else Failed;
    }

    /** Both containers are gone before the database is touched. */
    method TakeDown() returns (fate: Fate)
      requires Valid()
      requires !Dead()
      modifies `container, `staged, `faultsLeft, `crashed, data`files
      ensures Dead() <==> fate.Crashed?
      ensures Valid()
      ensures fate.Done? ==> container.None? && !staged
      ensures forall p: Path | !p.Live? :: p in data.files <==> p in old(data.files)
      ensures Blames(fate.Done?)
    {
      fate := Stop();
      if fate.Done? { fate := Remove(); }
    }

    /** The previous release is started and answers. */
    method StartPrevious(tag: Tag) returns (fate: Fate)
      requires Valid() && pending.Some? && pending.value.restored && tagOf(environment) == Some(tag) && tag in images
      requires !Dead()
      modifies `container, `history, `staged, `faultsLeft, `crashed, data`files
      ensures Dead() <==> fate.Crashed?
      ensures Valid() && history == old(history) + [PreviousUp]
      ensures fate.Done? ==> container == Some(Container(tag, true))
      ensures forall p: Path | !p.Live? :: p in data.files <==> p in old(data.files)
      ensures Blames(fate.Done?)
    {
      fate := Up(PreviousUp);
      if !fate.Done? { return; }
      var ready := Answers(tag);
      fate := if ready then Done else Failed;
    }

    /** rollback_recorded_release */
    method RollbackRecorded(p: Preflight, token: nat) returns (fate: Fate)
      requires Valid() && Recorded(p)
      requires !Dead()
      modifies `environment, `compose, `nginx, `loadedNginx, `pending, `container, `history, `staged, `faultsLeft, `crashed, data
      ensures Dead() <==> fate.Crashed?
      ensures Valid() && old(history) <= history
      ensures pending.Some? && pending.value.version == p.version
      ensures Amends(pending.value, old(pending).value, (q: Preflight) => q.(restored := true))
      ensures fate.Done? ==> Restored() && container == Some(Container(p.previousTag, true))
      ensures !p.mayHaveChanged ==>
        data.files == old(data.files) && history == old(history) && container == old(container) && pending == old(pending)
      ensures old(container) == Some(Container(p.previousTag, true)) && faultsLeft == old(faultsLeft) ==>
        data.files == old(data.files) && history == old(history) && container == old(container) && pending == old(pending)
      ensures
        NoArtifacts(old(data.files)) && (p.mayHaveChanged || old(container) == Some(Container(p.previousTag, true))) ==>
          fate.Done? || Blames(false)
      ensures Calmer()
    {
      var matches := false;
      if p.mayHaveChanged { matches := Answers(p.previousTag); }
      if !p.mayHaveChanged || matches {
        fate := RestorePreRuntime(p);
      } else {
        fate := RollbackRuntime(p, token);
      }
    }

    /** rollback_pending_release.  With a record, success reproduces the runtime files
        the stage found; without one it succeeds and changes nothing. */
    method RollbackPending(version: Tag, token: nat) returns (fate: Fate)
      requires Valid()
      requires !Dead()
      modifies `environment, `compose, `nginx, `loadedNginx, `pending, `snapshots, `container, `history, `staged, `faultsLeft, `crashed, data
      ensures Dead() <==> fate.Crashed?
      ensures Valid() && old(history) <= history
      ensures fate.Done? ==> pending.None?
      ensures fate.Done? && old(pending).Some? ==> snapshots == old(snapshots) - old(Referenced())
      ensures old(pending).None? ==>
        && fate.Done? && environment == old(environment) && compose == old(compose) && nginx == old(nginx)
        && container == old(container) && data.files == old(data.files) && history == old(history)
        && snapshots == old(snapshots) && loadedNginx == old(loadedNginx) && Blames(true)
      ensures fate.Done? && old(environment) == before.environment && old(nginx) == before.nginx ==>
        (FilesAsBefore() <==> old(pending).Some? || old(compose) == before.compose)
      ensures old(pending).Some? && pending.None? ==>
        && Restored() && container == Some(Container(old(pending).value.previousTag, true))
        && tagOf(environment) == Some(old(pending).value.previousTag)
      ensures old(pending).Some? && pending.Some? ==>
        Amends(pending.value, old(pending).value, (q: Preflight) => q.(restored := true))
      ensures old(pending).Some? && !old(pending).value.mayHaveChanged ==> data.files == old(data.files)
      ensures old(pending).Some? ==> Spares(old(pending).value.previousTag)
      ensures
        (&& old(pending).Some? && old(pending).value.version == version && NoArtifacts(old(data.files))
         && (old(pending).value.mayHaveChanged || old(container) == Some(Container(old(pending).value.previousTag, true)))) ==>
          fate.Done? || Blames(false)
      ensures Calmer()
    {
      if pending.None? { return Done; }
      fate := RollBackAndClose(version, token);
    }

    /** Loading the record, rolling back what it says and closing it. */
    method RollBackAndClose(version: Tag, token: nat) returns (fate: Fate)
      requires Valid() && pending.Some?
      requires !Dead()
      modifies `environment, `compose, `nginx, `loadedNginx, `pending, `snapshots, `container, `history, `staged, `faultsLeft, `crashed, data
      ensures Dead() <==> fate.Crashed?
      ensures Valid() && old(history) <= history
      ensures fate.Done? ==> pending.None? && snapshots == old(snapshots) - old(Referenced())
      ensures if pending.None?
        then Restored() && container == Some(Container(old(pending).value.previousTag, true))
        else Amends(pending.value, old(pending).value, (q: Preflight) => q.(restored := true))
      ensures !old(pending).value.mayHaveChanged ==> data.files == old(data.files)
      ensures Spares(old(pending).value.previousTag)
      ensures
        (&& old(pending).value.version == version && NoArtifacts(old(data.files))
         && (old(pending).value.mayHaveChanged || old(container) == Some(Container(old(pending).value.previousTag, true)))) ==>
          fate.Done? || Blames(false)
      ensures Calmer()
    {
      var p;
      fate, p := Load(version);
      if !fate.Done? { return; }
      fate := RollbackRecorded(p, token);
      if !fate.Done? { return; }
      fate := Close(p);
    }

    /** If the previous release was running and no probe missed it, neither the database nor the
        container was touched. */
    twostate predicate Spares(previousTag: Tag)
      reads this, data
    {
      old(container) == Some(Container(previousTag, true)) && faultsLeft == old(faultsLeft) ==>
        data.files == old(data.files) && container == old(container) && (history == old(history) || history == old(history) + [Closed])
    }

    /** finalize_pending_release */
    method Finalize(version: Tag) returns (fate: Fate)
      requires Valid()
      requires !Dead()
      modifies `pending, `snapshots, `history, `staged, `faultsLeft, `crashed
      ensures Dead() <==> fate.Crashed?
      ensures Valid() && old(history) <= history
      ensures fate.Done? ==> pending.None? && container == Some(Container(version, true))
      ensures fate.Done? ==> old(pending).Some? && snapshots == old(snapshots) - old(Referenced())
      ensures old(pending).Some? && old(pending).value.version == version && container == Some(Container(version, true)) ==>
        Blames(fate.Done?)
      ensures faultsLeft <= old(faultsLeft)
    {
      var p;
      fate, p := Load(version);
      if !fate.Done? { return; }
      var ready := Answers(version);
      if !ready { return Failed; }
      fate := Close(p);
    }

    // ----- cli.py and runtime.py: the way forward

    /** snapshot_runtime_file: a new private file, removed again when it cannot be completed. */
    method Snapshot(content: Bytes) returns (fate: Fate, id: nat)
      requires !Dead()
      modifies `snapshots, `faultsLeft, `crashed
      ensures Dead() <==> fate.Crashed?
      ensures fate.Done? ==> id !in old(snapshots) && snapshots == old(snapshots)[id := content]
      ensures forall other <- old(snapshots) :: other in snapshots && snapshots[other] == old(snapshots)[other]
      ensures fate.Failed? && old(faultsLeft) <= 1 ==> snapshots == old(snapshots)
      ensures Blames(fate.Done?)
    {
      id := FreshName(snapshots.Keys);
      fate := Attempt();
      var partial: Bytes := *;
      snapshots := snapshots[id := if fate.Done? then content else partial];
      if fate.Failed? {
        var gone := Attempt();
        if gone.Done? { snapshots := snapshots - {id}; }
        if gone.Crashed? { fate := Crashed; }
      }
    }

    method UnlinkBackup(id: nat) returns (fate: Fate)
      requires !Dead()
      modifies `backups, `faultsLeft, `crashed
      ensures Dead() <==> fate.Crashed?
      ensures fate.Done? ==> backups == old(backups) - {id}
      ensures backups == old(backups) || backups == old(backups) - {id}
      ensures Blames(fate.Done?)
    {
      fate := Attempt();
      var effect: bool := *;
      if fate.Done? || (fate.Crashed? && effect) { backups := backups - {id}; }
    }

    /** The unlink loop over sorted(backups, reverse=True)[DATABASE_BACKUP_LIMIT:]. */
    method PruneBackups() returns (exit: Exit<bool>)
      requires !Dead()
      modifies `backups, `faultsLeft, `crashed
      ensures Dead() <==> exit.Died?
      ensures backups.Keys <= old(backups).Keys && forall id <- backups :: backups[id] == old(backups)[id]
      ensures exit.Returned? ==> Newest(backups.Keys, old(backups).Keys)
      ensures Blames(exit.Returned?)
    {
      var kept, rest := SplitNewest(backups.Keys);
      exit := UnlinkBackups(rest);
      if exit.Returned? { assert backups.Keys == kept; }
    }

    method UnlinkBackups(names: set<nat>) returns (exit: Exit<bool>)
      requires !Dead()
      modifies `backups, `faultsLeft, `crashed
      ensures Dead() <==> exit.Died?
      ensures old(backups).Keys - names <= backups.Keys <= old(backups).Keys
      ensures forall id <- backups :: backups[id] == old(backups)[id]
      ensures exit.Returned? ==> backups == old(backups) - names
      ensures Blames(exit.Returned?)
    {
      var rest := names;
      ghost var gone: set<nat> := {};
      assert backups == old(backups) - gone;
      while rest != {}
        invariant rest <= names && gone == names - rest && backups == old(backups) - gone
        invariant faultsLeft == old(faultsLeft) && !Dead()
        decreases |rest|
      {
        var id := Greatest(rest);
        var fate := UnlinkBackup(id);
        assert old(backups) - gone - {id} == old(backups) - (gone + {id});
        if !fate.Done? { return if fate.Crashed? then Died else Raised; }
        rest, gone := rest - {id}, gone + {id};
      }
      var fate := Attempt();        // fsync of the directory
      exit := if fate.Done? then Returned(true) else if fate.Crashed? then Died else Raised;
    }

    /** backup_production_database: refuses artifacts, reports a missing database, prunes
        older backups once the new one is there. */
    method BackUp() returns (exit: Exit<Option<nat>>)
      requires Valid() && pending.None?
      requires !Dead()
      modifies `backups, `faultsLeft, `crashed
      ensures Dead() <==> exit.Died?
      ensures Valid()
      ensures exit.Returned? ==>
        && NoArtifacts(data.files)
        && (exit.value.None? <==> Main !in LiveFiles(data.files))
        && (exit.value.Some? ==> exit.value.value in backups && backups[exit.value.value] == materialize(LiveFiles(data.files)))
      ensures exit.Returned? && exit.value.None? ==> backups == old(backups)
      ensures exit.Returned? && exit.value.Some? ==>
        && exit.value.value !in old(backups) && Newest(backups.Keys, old(backups).Keys + {exit.value.value})
        && forall id <- backups :: id == exit.value.value || backups[id] == old(backups)[id]
      ensures if NoArtifacts(data.files) then Blames(exit.Returned?) else Blames(true)
    {
      var found := data.HasArtifacts();
      if found { return Raised; }
      if Live(Main) !in data.files { return Returned(None); }
      var id := FreshName(backups.Keys);
      var fate := Attempt();
      var effect: bool := *;
      if fate.Done? || (fate.Crashed? && effect) { backups := backups[id := materialize(LiveFiles(data.files))]; }
      if !fate.Done? { return if fate.Crashed? then Died else Raised; }
      ghost var all := old(backups).Keys + {id};
      assert backups.Keys == all;
      var pruned := PruneBackups();
      if !pruned.Returned? { return if pruned.Died? then Died else Raised; }
      NewestStays(backups.Keys, all, id);
      assert (set other | other in all && other > id) == {};
      exit := Returned(Some(id));
    }

    /** The preflight describes the runtime the stage found. */
    ghost predicate Captured(p: Preflight)
      reads this
    {
      && p.previousEnv == before.environment && tagOf(p.previousEnv) == Some(p.previousTag)
      && p.previousTag in images && p.version in images
      && p.nginxSnapshot in snapshots && snapshots[p.nginxSnapshot] == before.nginx
      && p.composeSnapshot in snapshots && snapshots[p.composeSnapshot] == before.compose
      && (p.backup.Some? ==> p.backup.value in backups)
      && !p.mayHaveChanged && !p.restored
    }

    /** preflight_production */
    method TakePreflight(version: Tag) returns (exit: Exit<Preflight>)
      requires Valid() && pending.None?
      requires !Dead()
      modifies `snapshots, `backups, `images, `before, `faultsLeft, `crashed
      ensures Dead() <==> exit.Died?
      ensures Valid()
      ensures before == Runtime(environment, compose, nginx)
      ensures exit.Returned? ==> Captured(exit.value) && exit.value.version == version
      ensures exit.Returned? ==> snapshots - {exit.value.nginxSnapshot, exit.value.composeSnapshot} == old(snapshots)
      ensures exit.Returned? ==>
        (var live := LiveFiles(data.files);
         Wanted(backups, exit.value.backup) == Some(if Main in live then ImageAlone(materialize(live)) else map[]))
      ensures old(images) <= images
      ensures old(Startable()) && NoArtifacts(data.files) ==> Blames(exit.Returned?)
      ensures exit.Raised? && NoArtifacts(data.files) && old(faultsLeft) <= 1 ==> snapshots == old(snapshots)
      ensures faultsLeft <= old(faultsLeft)
    {
      before := Runtime(environment, compose, nginx);
      var tag := tagOf(environment);
      if tag.None? || tag.value !in images { return Raised; }
      var fate := Attempt();            // compose config --quiet
      if !fate.Done? { return if fate.Failed? then Raised else Died; }
      var nginxId, composeId;
      fate, nginxId, composeId := TakeSnapshots();
      if !fate.Done? { return if fate.Failed? then Raised else Died; }
      var saved := BackUpOrCleanUp(version, nginxId, composeId);
      if saved.Returned? {
        return Returned(Preflight(version, environment, tag.value, saved.value, nginxId, composeId, false, false));
      }
      exit := if saved.Died? then Died else Raised;
    }

    /** The rest of the preflight; its failure removes the two snapshots. */
    method BackUpOrCleanUp(version: Tag, nginxId: nat, composeId: nat) returns (exit: Exit<Option<nat>>)
      requires Valid() && pending.None?
      requires !Dead()
      modifies `backups, `images, `snapshots, `faultsLeft, `crashed
      ensures Dead() <==> exit.Died?
      ensures Valid() && old(images) <= images
      ensures exit.Returned? ==> version in images && snapshots == old(snapshots)
      ensures exit.Returned? && exit.value.Some? ==> exit.value.value in backups
      ensures exit.Returned? ==>
        (var live := LiveFiles(data.files);
         Wanted(backups, exit.value) == Some(if Main in live then ImageAlone(materialize(live)) else map[]))
      ensures exit.Raised? && NoArtifacts(data.files) && old(faultsLeft) <= 1 ==> snapshots == old(snapshots) - {nginxId, composeId}
      ensures NoArtifacts(data.files) ==> Blames(exit.Returned?)
      ensures faultsLeft <= old(faultsLeft)
    {
      exit := BackUpAndLoad(version);
      if !exit.Raised? { return; }
      var cleaned := CleanupSnapshots([nginxId, composeId]);
      assert (set id <- [nginxId, composeId]) == {nginxId, composeId};
      if cleaned == Died { exit := Died; }
    }

    /** load_verified_docker_image_archive */
    method LoadImage(version: Tag) returns (fate: Fate)
      requires !Dead()
      modifies `images, `faultsLeft, `crashed
      ensures Dead() <==> fate.Crashed?
      ensures fate.Done? ==> version in images
      ensures old(images) <= images <= old(images) + {version}
      ensures Blames(fate.Done?)
    {
      fate := Attempt();
      var effect: bool := *;
      if fate.Done? || effect { images := images + {version}; }
    }

    /** The backup and the loading of the verified image archive. */
    method BackUpAndLoad(version: Tag) returns (exit: Exit<Option<nat>>)
      requires Valid() && pending.None?
      requires !Dead()
      modifies `backups, `images, `faultsLeft, `crashed
      ensures Dead() <==> exit.Died?
      ensures Valid() && old(images) <= images
      ensures exit.Returned? ==> version in images
      ensures exit.Returned? && exit.value.Some? ==> exit.value.value in backups
      ensures exit.Returned? ==>
        (var live := LiveFiles(data.files);
         Wanted(backups, exit.value) == Some(if Main in live then ImageAlone(materialize(live)) else map[]))
      ensures if NoArtifacts(data.files) then Blames(exit.Returned?) else Blames(true)
    {
      exit := BackUp();
      if !exit.Returned? { return; }
      var fate := LoadImage(version);
      if !fate.Done? { exit := if fate.Failed? then Raised else Died; }
    }

    /** The two snapshots of a preflight; a failure of the second removes the first. */
    method TakeSnapshots() returns (fate: Fate, nginxId: nat, composeId: nat)
      requires Valid() && pending.None?
      requires !Dead()
      modifies `snapshots, `faultsLeft, `crashed
      ensures Dead() <==> fate.Crashed?
      ensures Valid()
      ensures fate.Done? ==>
        && nginxId in snapshots && snapshots[nginxId] == nginx && composeId in snapshots && snapshots[composeId] == compose
        && snapshots - {nginxId, composeId} == old(snapshots)
      ensures fate.Failed? && old(faultsLeft) <= 1 ==> snapshots == old(snapshots)
      ensures Blames(fate.Done?)
    {
      composeId := 0;
      fate, nginxId := Snapshot(nginx);
      if !fate.Done? { return; }
      ghost var one := snapshots;
      fate, composeId := Snapshot(compose);
      if !fate.Failed? {
        assert fate.Done? ==> snapshots - {nginxId, composeId} == old(snapshots);
        return;
      }
      var exit := CleanupSnapshots([nginxId]);
      assert (set id <- [nginxId]) == {nginxId};
      assert one - {nginxId} == old(snapshots);
      if exit == Died { fate := Crashed; }
    }

    /** extract_archive and the source manifest: replaces the Compose file in place. */
    method Extract(archived: Bytes) returns (fate: Fate)
      requires !Dead()
      modifies `compose, `faultsLeft, `crashed
      ensures Dead() <==> fate.Crashed?
      ensures fate.Done? ==> compose == archived
      ensures compose == archived || compose == old(compose)
      ensures Blames(fate.Done?)
    {
      fate := WriteCompose(archived);
    }

    /** The body of deploy_production's try block. */
    method Switch(p: Preflight, newEnv: Bytes, newNginx: Bytes) returns (fate: Fate)
      requires Valid() && pending.None? && Captured(p)
      requires !Dead()
      modifies `environment, `nginx, `loadedNginx, `pending, `container, `history, `staged, `faultsLeft, `crashed, data
      ensures Dead() <==> fate.Crashed?
      ensures Valid() && old(history) <= history
      ensures pending.Some? ==>
        && pending.value.version == p.version && !pending.value.restored && pending.value.previousTag == p.previousTag
        && Referenced() == {p.nginxSnapshot, p.composeSnapshot}
      ensures fate.Done? ==>
        && pending.Some? && pending.value.mayHaveChanged
        && environment == newEnv && nginx == newNginx == loadedNginx && container == Some(Container(p.version, true))
      ensures pending.None? ==>
        && environment == old(environment) && nginx == old(nginx) && container == old(container)
        && data.files == old(data.files)
      ensures forall p: Path | !p.Live? :: p in data.files <==> p in old(data.files)
      ensures tagOf(newEnv) == Some(p.version) ==> Blames(fate.Done?)
      ensures tagOf(newEnv) != Some(p.version) ==> !fate.Done? && (Blames(false) || (fate.Failed? && pending.Some? && pending.value.mayHaveChanged))
      ensures !fate.Done? && old(container).Some? && old(container).value.running ==>
        pending.None? || pending.value.mayHaveChanged || container == old(container)
      ensures faultsLeft <= old(faultsLeft) && data.faultsLeft == old(data.faultsLeft)
    {
      fate := AnnounceSwitch(p, newEnv);
      if !fate.Done? { return; }
      fate := StartStaged(p.version);
      if !fate.Done? { return; }
      fate := InstallNginx(newNginx);
    }

    /** install_production_nginx */
    method InstallNginx(content: Bytes) returns (fate: Fate)
      requires !Dead()
      modifies `nginx, `loadedNginx, `faultsLeft, `crashed
      ensures Dead() <==> fate.Crashed?
      ensures fate.Done? ==> nginx == content == loadedNginx
      ensures Blames(fate.Done?)
    {
      fate := WriteNginx(content);
      if fate.Done? { fate := ReloadNginx(); }
    }

    /** The staged release is started and has to answer. */
    method StartStaged(version: Tag) returns (fate: Fate)
      requires Valid() && pending.Some? && pending.value.mayHaveChanged && !pending.value.restored
      requires !Dead()
      modifies `container, `history, `staged, `faultsLeft, `crashed, data`files
      ensures Dead() <==> fate.Crashed?
      ensures Valid() && history == old(history) + [StagedUp]
      ensures fate.Done? ==> container == Some(Container(version, true))
      ensures forall p: Path | !p.Live? :: p in data.files <==> p in old(data.files)
      ensures Startable() && tagOf(environment) == Some(version) ==> Blames(fate.Done?)
      ensures tagOf(environment) != Some(version) ==> !fate.Done? && (fate.Failed? || Blames(false))
      ensures faultsLeft <= old(faultsLeft)
    {
      fate := Up(StagedUp);
      if !fate.Done? { return; }
      var ready := Answers(version);
      fate := if ready then Done else Failed;
    }

    /** Up to the mark after which a staged container may start. */
    method AnnounceSwitch(p: Preflight, newEnv: Bytes) returns (fate: Fate)
      requires Valid() && pending.None? && Captured(p)
      requires !Dead()
      modifies `environment, `pending, `faultsLeft, `crashed
      ensures Dead() <==> fate.Crashed?
      ensures Valid()
      ensures pending.Some? ==>
        && pending.value.version == p.version && !pending.value.restored && pending.value.previousTag == p.previousTag
        && Referenced() == {p.nginxSnapshot, p.composeSnapshot}
      ensures fate.Done? ==> pending.Some? && pending.value.mayHaveChanged && environment == newEnv
      ensures pending.None? ==> environment == old(environment)
      ensures Blames(fate.Done?)
    {
      ParseRender(p);
      RoundTrip(p.previousEnv);
      fate := WritePending(Render(p));
      if !fate.Done? { return; }
      fate := WriteEnvironment(newEnv);
      if !fate.Done? { return; }
      fate := Attempt();              // compose config --quiet
      if !fate.Done? { return; }
      fate := MarkMayHaveChanged(p.version);
    }

    /** The except block of deploy_production. */
    method Reconcile(p: Preflight, token: nat) returns (fate: Fate)
      requires Valid() && (pending.None? ==> Captured(p))
      requires !Dead()
      modifies `environment, `compose, `nginx, `loadedNginx, `pending, `snapshots, `container, `history, `staged, `faultsLeft, `crashed, data
      ensures Dead() <==> fate.Crashed?
      ensures Valid() && old(history) <= history
      ensures fate.Done? ==>
        && pending.None? && Restored()
        && container.Some? && container.value.running && Some(container.value.tag) == tagOf(before.environment)
      ensures faultsLeft <= old(faultsLeft) && data.faultsLeft <= old(data.faultsLeft)
      ensures old(pending).Some? && pending.None? ==> Restored()
      ensures old(pending).None? ==>
        && pending.None?
        && (environment == old(environment) || environment == before.environment)
        && (compose == old(compose) || compose == before.compose)
        && (nginx == old(nginx) || nginx == before.nginx)
      ensures fate.Done? ==>
        snapshots == old(snapshots) - if old(pending).Some? then old(Referenced()) else {p.nginxSnapshot, p.composeSnapshot}
      ensures
        (&& NoArtifacts(old(data.files)) && (old(pending).Some? ==> old(pending).value.version == p.version)
         && (|| (old(pending).Some? && old(pending).value.mayHaveChanged)
             || (old(container).Some? && old(container).value.running && Some(old(container).value.tag) == tagOf(before.environment)))) ==>
          fate.Done? || Blames(false)
    {
      if pending.Some? {
        fate := RollBackAndClose(p.version, token);
      } else {
        fate := AbortUnrecorded(p);
      }
    }

    /** Nothing was recorded, so only the files can have changed. */
    method AbortUnrecorded(p: Preflight) returns (fate: Fate)
      requires Valid() && pending.None? && Captured(p)
      requires !Dead()
      modifies `environment, `compose, `nginx, `loadedNginx, `snapshots, `faultsLeft, `crashed
      ensures Dead() <==> fate.Crashed?
      ensures Valid()
      ensures fate.Done? ==> Restored() && container == Some(Container(p.previousTag, true))
      ensures fate.Done? ==> snapshots == old(snapshots) - {p.nginxSnapshot, p.composeSnapshot}
      ensures
        && (environment == old(environment) || environment == before.environment)
        && (compose == old(compose) || compose == before.compose) && (nginx == old(nginx) || nginx == before.nginx)
      ensures container == Some(Container(p.previousTag, true)) ==> fate.Done? || Blames(false)
      ensures faultsLeft <= old(faultsLeft)
    {
      fate := RestorePreRuntime(p);
      if !fate.Done? { return; }
      var exit := CleanupSnapshots([p.nginxSnapshot, p.composeSnapshot]);
      assert (set id <- [p.nginxSnapshot, p.composeSnapshot]) == {p.nginxSnapshot, p.composeSnapshot};
      fate := if exit == Returned(true) then Done else if exit == Died then Crashed else Failed;
    }

    /** At most one thing goes wrong: a single fault while the previous release serves, or, with
        no fault at all, an environment that does not name the new release. */
    ghost predicate Bearable(newEnv: Bytes, version: Tag)
      reads this, data
    {
      && NoArtifacts(data.files) && Startable()
      && if tagOf(newEnv) == Some(version) then Faults() <= 1 && container == Some(Container(tagOf(environment).value, true))
         else Faults() == 0
    }

    /** The host is as the stage found it, with the previous release running. */
    twostate predicate UndoneExactly()
      reads this
    {
      && pending.None? && snapshots == old(snapshots)
      && Runtime(environment, compose, nginx) == old(Runtime(environment, compose, nginx))
      && container.Some? && container.value.running && Some(container.value.tag) == tagOf(environment)
    }

    /** cli.deploy: preflight, extraction, switch, and the reconciliation of a failure.
        `reconciled` is false when the failure handler itself failed. */
    method Deploy(version: Tag, archived: Bytes, newEnv: Bytes, newNginx: Bytes, token: nat)
      returns (fate: Fate, reconciled: bool)
      requires Valid()
      requires !Dead()
      modifies this, data
      ensures Dead() <==> fate.Crashed?
      ensures Valid() && old(history) <= history
      ensures old(pending).Some? ==>
        && fate.Failed? && pending == old(pending) && history == old(history)
        && Runtime(environment, compose, nginx) == old(Runtime(environment, compose, nginx))
      ensures fate.Done? ==>
        && pending.Some? && pending.value.version == version && pending.value.mayHaveChanged && !pending.value.restored
        && Runtime(environment, compose, nginx) == Runtime(newEnv, archived, newNginx) && loadedNginx == newNginx
        && container == Some(Container(version, true))
        && before == old(Runtime(environment, compose, nginx))
      ensures
        (&& old(pending).None? && old(Startable()) && tagOf(newEnv) == Some(version)
         && NoArtifacts(old(data.files))) ==> fate.Done? || Blames(false)
      ensures old(pending).None? && fate.Failed? && old(Bearable(newEnv, version)) ==> reconciled && UndoneExactly()
      ensures old(pending).None? ==> before == old(Runtime(environment, compose, nginx))
      ensures fate.Failed? && reconciled && old(pending).None? ==> pending.None? && FilesAsBefore()
      ensures old(pending).None? && pending.None? ==>
        && environment == old(environment) && nginx == old(nginx)
        && (compose == old(compose) || compose == archived)
    {
      if pending.Some? { return Failed, true; }
      var exit := TakePreflight(version);
      if !exit.Returned? { return (if exit.Raised? then Failed else Crashed), true; }
      var p := exit.value;
      fate, reconciled := ExtractOrRestore(p, archived);
      if !fate.Done? { return; }
      fate, reconciled := DeployProduction(p, newEnv, newNginx, token);
    }

    /** The extraction and the handler around it. */
    method ExtractOrRestore(p: Preflight, archived: Bytes) returns (fate: Fate, reconciled: bool)
      requires Valid() && pending.None? && Captured(p) && compose == before.compose
      requires !Dead()
      modifies `compose, `snapshots, `faultsLeft, `crashed
      ensures Dead() <==> fate.Crashed?
      ensures Valid()
      ensures fate.Done? ==> compose == archived && snapshots == old(snapshots)
      ensures compose == old(compose) || compose == archived
      ensures fate.Failed? && reconciled ==>
        compose == old(compose) && snapshots == old(snapshots) - {p.nginxSnapshot, p.composeSnapshot}
      ensures fate.Failed? && old(faultsLeft) <= 1 ==> reconciled
      ensures Blames(fate.Done?)
    {
      fate := Extract(archived);
      if fate.Crashed? { return fate, false; }
      if fate.Done? { return fate, true; }
      var back := RestoreCompose(p.composeSnapshot);
      if back == Died { return Crashed, false; }
      if back == Raised { return Failed, false; }
      var cleaned := CleanupSnapshots([p.nginxSnapshot, p.composeSnapshot]);
      assert (set id <- [p.nginxSnapshot, p.composeSnapshot]) == {p.nginxSnapshot, p.composeSnapshot};
      if cleaned == Died { return Crashed, false; }
      reconciled := back == Returned(true) && cleaned == Returned(true);
    }

    /** deploy_production: the switch, and the reconciliation of a failed one. */
    method DeployProduction(p: Preflight, newEnv: Bytes, newNginx: Bytes, token: nat) returns (fate: Fate, reconciled: bool)
      requires Valid() && pending.None? && Captured(p) && environment == before.environment && nginx == before.nginx
      requires !Dead()
      modifies `environment, `compose, `nginx, `loadedNginx, `pending, `snapshots, `container, `history, `staged, `faultsLeft, `crashed, data
      ensures Dead() <==> fate.Crashed?
      ensures Valid() && old(history) <= history
      ensures fate.Done? ==>
        && pending.Some? && pending.value.version == p.version && pending.value.mayHaveChanged && !pending.value.restored
        && Runtime(environment, compose, nginx) == Runtime(newEnv, old(compose), newNginx) && loadedNginx == newNginx
        && container == Some(Container(p.version, true))
      ensures fate.Failed? && reconciled ==>
        && pending.None? && Restored() && snapshots == old(snapshots) - {p.nginxSnapshot, p.composeSnapshot}
        && container == Some(Container(p.previousTag, true))
      ensures pending.None? ==>
        environment == before.environment && nginx == before.nginx && (compose == old(compose) || compose == before.compose)
      ensures tagOf(newEnv) == Some(p.version) ==> fate.Done? || Blames(false)
      ensures
        (&& fate.Failed? && NoArtifacts(old(data.files))
         && if tagOf(newEnv) == Some(p.version) then old(Faults()) <= 1 && old(container) == Some(Container(p.previousTag, true))
            else old(Faults()) == 0) ==> reconciled
      ensures faultsLeft <= old(faultsLeft) && data.faultsLeft <= old(data.faultsLeft)
    {
      fate := Switch(p, newEnv, newNginx);
      if !fate.Failed? { return fate, fate.Done?; }
      var undone := Reconcile(p, token);
      if undone.Crashed? { return Crashed, false; }
      reconciled := undone.Done?;
    }

    /** The beginning of every invocation: a new process cleans up after the last one. */
    method BeginInvocation() returns (fate: Fate)
      requires Valid()
      modifies `snapshots, `faultsLeft, `crashed, data`crashed
      ensures Dead() <==> fate.Crashed?
      ensures Valid() && Referenced() <= snapshots.Keys <= old(snapshots).Keys
      ensures fate.Done? ==> snapshots.Keys == Referenced()
      ensures Blames(fate.Done?)
    {
      crashed, data.crashed := false, false;
      fate := CleanupAbandoned();
    }

    /** What a stage leaves, wherever it stops. */
    twostate predicate StageOutcome(version: Tag, archived: Bytes, newEnv: Bytes, newNginx: Bytes, fate: Fate)
      reads this, data
    {
      && (old(pending).None? && pending.Some? ==> before == old(Runtime(environment, compose, nginx)))
      && (old(pending).None? && pending.None? ==>
            && environment == old(environment) && nginx == old(nginx)
            && (compose == old(compose) || compose == archived))
      && (fate.Done? ==>
            && old(pending).None? && pending.Some? && pending.value.version == version && pending.value.mayHaveChanged
            && Runtime(environment, compose, nginx) == Runtime(newEnv, archived, newNginx)
            && loadedNginx == nginx && container == Some(Container(version, true)))
      && (old(pending).None? && old(Startable()) && tagOf(newEnv) == Some(version) && NoArtifacts(old(data.files)) ==>
            fate.Done? || Blames(false))
      && (old(pending).None? && fate.Failed? && old(Bearable(newEnv, version)) ==>
            && pending.None? && Runtime(environment, compose, nginx) == old(Runtime(environment, compose, nginx))
            && container.Some? && container.value.running && Some(container.value.tag) == tagOf(environment))
    }

    /** What a rollback leaves, wherever it stops. */
    twostate predicate RollbackOutcome(version: Tag, fate: Fate)
      reads this, data
    {
      && before == old(before) && Calmer() && (fate.Done? ==> pending.None?)
      && (old(pending).Some? && pending.None? ==>
            Restored() && container == Some(Container(old(pending).value.previousTag, true)))
      && (old(pending).Some? && pending.Some? ==>
            Amends(pending.value, old(pending).value, (q: Preflight) => q.(restored := true)))
      && (old(pending).Some? ==> Spares(old(pending).value.previousTag))
      && (old(pending).None? ==>
            && pending.None? && container == old(container) && data.files == old(data.files)
            && Runtime(environment, compose, nginx) == old(Runtime(environment, compose, nginx)) && loadedNginx == old(loadedNginx)
            && (fate.Done? ==> snapshots == map[])
            && Blames(fate.Done?))
      && (&& old(pending).Some? && old(pending).value.version == version && NoArtifacts(old(data.files))
          && (old(pending).value.mayHaveChanged || old(container) == Some(Container(old(pending).value.previousTag, true))) ==>
            fate.Done? || Blames(false))
    }

    /** Finalizing and maintaining touch neither files, container nor database. */
    twostate predicate RuntimeKept()
      reads this, data
    {
      && Runtime(environment, compose, nginx) == old(Runtime(environment, compose, nginx)) && loadedNginx == old(loadedNginx)
      && container == old(container) && data.files == old(data.files)
    }

    twostate predicate FinalizeOutcome(version: Tag, fate: Fate)
      reads this, data
    {
      && RuntimeKept()
      && (fate.Done? ==>
            old(pending).Some? && pending.None? && container == Some(Container(version, true)) && snapshots == map[])
      && (old(pending).Some? && old(pending).value.version == version && container == Some(Container(version, true)) ==>
            Blames(fate.Done?))
    }

    twostate predicate MaintainOutcome(aged: bool, fate: Fate)
      reads this, data
    {
      && RuntimeKept() && pending == old(pending) && (old(pending).Some? ==> !fate.Done?)
      && (old(pending).None? && (aged ==> NoArtifacts(data.files)) ==> Blames(fate.Done?))
      && (fate.Done? && aged && Main in LiveFiles(data.files) ==>
            exists id <- backups :: id !in old(backups) && backups[id] == materialize(LiveFiles(data.files)))
      && (!aged ==> backups == old(backups))
    }

    method InvokeStage(version: Tag, archived: Bytes, newEnv: Bytes, newNginx: Bytes, token: nat) returns (fate: Fate)
      requires Valid()
      modifies this, data
      ensures Valid() && old(history) <= history && (Dead() <==> fate.Crashed?)
      ensures StageOutcome(version, archived, newEnv, newNginx, fate)
    {
      fate := BeginInvocation();
      if !fate.Done? { return; }
      var reconciled;
      fate, reconciled := Deploy(version, archived, newEnv, newNginx, token);
    }

    method InvokeRollback(version: Tag, token: nat) returns (fate: Fate)
      requires Valid()
      modifies this, data
      ensures Valid() && old(history) <= history && (Dead() <==> fate.Crashed?)
      ensures RollbackOutcome(version, fate)
    {
      fate := BeginInvocation();
      if fate.Done? { fate := RollbackPending(version, token); }
    }

    method InvokeFinalize(version: Tag) returns (fate: Fate)
      requires Valid()
      modifies this, data
      ensures Valid() && old(history) <= history && (Dead() <==> fate.Crashed?)
      ensures FinalizeOutcome(version, fate)
    {
      fate := BeginInvocation();
      if fate.Done? { fate := Finalize(version); }
    }

    method InvokeMaintain(aged: bool) returns (fate: Fate)
      requires Valid()
      modifies this, data
      ensures Valid() && old(history) <= history && (Dead() <==> fate.Crashed?)
      ensures MaintainOutcome(aged, fate)
    {
      fate := BeginInvocation();
      if !fate.Done? { return; }
      if pending.Some? { return Failed; }
      if !aged { return Done; }
      var saved := BackUp();
      fate := if saved.Returned? then Done else if saved.Raised? then Failed else Crashed;
    }

    /** One invocation of the helper under the control-plane lock. */
    method Invoke(command: Command) returns (fate: Fate)
      requires Valid()
      modifies this, data
      ensures Valid() && old(history) <= history && (Dead() <==> fate.Crashed?)
      ensures match command
        case StageRelease(version, archived, newEnv, newNginx, _) => StageOutcome(version, archived, newEnv, newNginx, fate)
        case FinalizeRelease(version) => FinalizeOutcome(version, fate)
        case RollBack(version, _) => RollbackOutcome(version, fate)
        case Maintain(aged) => MaintainOutcome(aged, fate)
    {
      match command
      case StageRelease(version, archived, newEnv, newNginx, token) =>
        fate := InvokeStage(version, archived, newEnv, newNginx, token);
      case FinalizeRelease(version) => fate := InvokeFinalize(version);
      case RollBack(version, token) => fate := InvokeRollback(version, token);
      case Maintain(aged) => fate := InvokeMaintain(aged);
    }

    /** A rollback of this record needs no more than its steps to work: the switch has begun and
        the database files are whole and give no trouble. */
    ghost predicate Retriable(version: Tag)
      reads this, data
    {
      && pending.Some? && pending.value.version == version && pending.value.mayHaveChanged
      && NoArtifacts(data.files) && data.faultsLeft == 0
    }

    /** Retrying a rollback, whatever state the stage or the earlier attempts were cut off in:
        once an attempt reports success, or has died just after removing the record, the
        runtime files are those the stage found and the container is the previous release's;
        it is known to run when the successful attempt itself found the record.  `found[i]` is
        the record as attempt i found it.  More attempts than faults are enough. */
    method RollBackUntilDone(version: Tag, tokens: seq<nat>) returns (done: bool, ghost found: seq<Option<Record>>)
      requires Valid()
      modifies this, data
      ensures Valid() && before == old(before)
      ensures done ==> pending.None? && found != []
      ensures |found| <= |tokens| && (found != [] ==> found[0] == old(pending))
      ensures old(pending).Some? && (done || pending.None?) ==>
        && Restored()
        && container.Some? && container.value.tag == old(pending).value.previousTag
      ensures done && found[|found| - 1].Some? ==>
        old(pending).Some? && container == Some(Container(old(pending).value.previousTag, true))
      ensures old(pending).None? ==>
        pending.None? && Runtime(environment, compose, nginx) == old(Runtime(environment, compose, nginx))
      ensures old(Retriable(version)) && |tokens| > old(faultsLeft) ==> done
    {
      done, found := false, [];
      for i := 0 to |tokens|
        invariant Valid() && before == old(before)
        invariant |found| == i && (i > 0 ==> found[0] == old(pending)) && (i == 0 ==> pending == old(pending))
        invariant old(pending).None? ==>
          pending.None? && Runtime(environment, compose, nginx) == old(Runtime(environment, compose, nginx))
        invariant old(pending).Some? && pending.None? ==>
          Restored() && container.Some? && container.value.tag == old(pending).value.previousTag
        invariant old(pending).Some? && pending.Some? ==> pending.value.previousTag == old(pending).value.previousTag
        invariant old(Retriable(version)) ==>
          (pending.Some? ==> Retriable(version)) && data.faultsLeft == 0 && faultsLeft + i <= old(faultsLeft)
      {
        var live: Triple, running: bool := *, *;
        Containers(live, running);
        found := found + [pending];
        var fate := Invoke(RollBack(version, tokens[i]));
        if fate.Done? { return true, found; }
      }
    }

    /** The exact condition of the window the record does not cover.  A stage ends or is cut
        short anywhere and rollbacks follow until one reports success: the runtime files are
        then those the stage found if and only if it left a record or had not yet replaced the
        Compose file, which a caller can see before rolling back. */
    method StageThenRollBack(
      version: Tag, archived: Bytes, newEnv: Bytes, newNginx: Bytes, token: nat, tokens: seq<nat>)
      returns (recorded: bool, replaced: bool, done: bool)
      requires Valid() && pending.None?
      modifies this, data
      ensures Valid()
      ensures done ==>
        (Runtime(environment, compose, nginx) == old(Runtime(environment, compose, nginx)) <==> recorded || !replaced)
      ensures !recorded && replaced ==>
        Runtime(environment, compose, nginx) == old(Runtime(environment, archived, nginx)) && archived != old(compose)
    {
      var found := compose;
      var _ := Invoke(StageRelease(version, archived, newEnv, newNginx, token));
      recorded, replaced := pending.Some?, compose != found;
      ghost var records;
      done, records := RollBackUntilDone(version, tokens);
    }

    /** Any number of invocations, each complete, failed or cut short anywhere, with the
        containers acting in between: the invariant holds throughout, and the history it
        speaks of is that of the whole run. */
    method Operate(script: seq<Command>)
      requires Valid()
      modifies this, data
      ensures Valid() && old(history) <= history
    {
      for i := 0 to |script|
        invariant Valid() && old(history) <= history
      {
        var live: Triple, running: bool := *, *;
        Containers(live, running);
        var _ := Invoke(script[i]);
      }
    }
  }

  datatype Command =
    | StageRelease(version: Tag, archived: Bytes, newEnv: Bytes, newNginx: Bytes, token: nat)
    | FinalizeRelease(version: Tag)
    | RollBack(version: Tag, token: nat)
    | Maintain(aged: bool)

  /** The window the record does not cover: a stage that dies after extraction and before
      the record is written.  The next rollback reports success, leaves the new Compose
      file in place and deletes the only copy of the old one. */
  method ExtractionCrashIsNotRolledBack() returns (rolledBack: Fate, found: Bytes, left: Bytes, snapshotsLeft: set<nat>)
    ensures rolledBack.Done? && left != found && snapshotsLeft == {}
  {
    var data := new DataDirectory(map[], 0);
    var host := new Production([1], [2], [3], None, {"previous"}, data, _ => Some("previous"), _ => [], 0);
    found := host.compose;
    var exit := host.TakePreflight("next");
    var fate := host.Extract([9]);
    // The process dies here.
    rolledBack := host.Invoke(RollBack("next", 0));
    left := host.compose;
    snapshotsLeft := host.snapshots.Keys;
  }
}
