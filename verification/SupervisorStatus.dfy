/** deploy/scripts/deployment_supervisor state.py, worker.py and monitor.py: what a worker
    may report, what the validator accepts, and what a zero from `wait` is worth. */
module SupervisorStatus {
  import opened Common
  import opened Text

  const SCHEMA := 3
  const SUBJECT := "production database "
  const READY_PREFIX := SUBJECT + "backup ready: "
  const NOT_REQUIRED_LINE := SUBJECT + "is not present; backup is not required"
  const BACKUP_DIR := "/opt/p2p-transmission/" + "deploy/production/" + "backups/control-"
  const SUFFIX := ".sqlite3"

  const WAIT_STATE_MISSING := 20
  const WAIT_TIMEOUT := 22
  const WAIT_DEPLOY_FAILED := 23
  const WAIT_STATE_INVALID := 24
  const WAIT_WORKER_LOCKED := 25
  const WORKER_INTERNAL_ERROR := 70
  const WORKER_LOCKED := 75

  predicate Digit(c: char) { '0' <= c <= '9' }
  predicate Hex(c: char) { Digit(c) || 'a' <= c <= 'f' }
  predicate Wordy(c: char) { Digit(c) || 'a' <= c <= 'z' || 'A' <= c <= 'Z' || c == '_' }

  predicate IsVersion(v: string) {
    && 1 <= |v| <= 128 && Wordy(v[0])
    && forall i :: 0 <= i < |v| ==> Wordy(v[i]) || v[i] == '.' || v[i] == '-'
  }

  predicate IsOperationId(o: string) { |o| == 40 && forall i :: 0 <= i < 40 ==> Hex(o[i]) }

  predicate IsSha256(d: string) { |d| == 64 && forall i :: 0 <= i < 64 ==> Hex(d[i]) }

  /** The backup path pattern for one version. */
  predicate IsBackupPath(path: string, version: string) {
    var n := |BACKUP_DIR|;
    && |path| > n + 21
    && (forall i :: n <= i < n + 21 && i != n + 8 ==> Digit(path[i]))
    && path == BACKUP_DIR + path[n..n + 8] + "T" + path[n + 9..n + 21] + "Z-" + version + SUFFIX
  }

  datatype Backup = Backup(path: Option<string>, notRequired: bool)

  predicate StartsWith(s: string, prefix: string) { prefix <= s }

  /** A line that reports the fate of the database backup. */
  predicate IsOutcome(line: string) { line == NOT_REQUIRED_LINE || StartsWith(line, READY_PREFIX) }

  /** What one outcome line says; None when it names an unsafe path. */
  function OutcomeOf(line: string, version: string): Option<Backup>
    requires IsOutcome(line)
  {
    if line == NOT_REQUIRED_LINE then Some(Backup(None, true))
    else
      var path := line[|READY_PREFIX|..];
      if IsBackupPath(path, version) then Some(Backup(Some(path), false)) else None
  }

  function Outcomes(lines: seq<string>): seq<string> { Filter(IsOutcome, lines) }

  /** The log says exactly one thing about the backup, and it is well formed. */
  predicate Establishes(lines: seq<string>, version: string, b: Backup) {
    |Outcomes(lines)| == 1 && IsOutcome(Outcomes(lines)[0]) && OutcomeOf(Outcomes(lines)[0], version) == Some(b)
  }

  /** parse_backup_log; None is a SupervisorError. */
  method ParseBackupLog(text: string, version: string) returns (b: Option<Backup>)
    ensures b.Some? ==> IsVersion(version) && Establishes(SplitLines(text), version, b.value)
    ensures b.None? && IsVersion(version) ==> forall r :: !Establishes(SplitLines(text), version, r)
  {
    if !IsVersion(version) { return None; }
    var lines := SplitLines(text);
    var records: seq<Backup> := [];
    for i := 0 to |lines|
      invariant |records| == |Outcomes(lines[..i])|
      invariant forall k :: 0 <= k < |records| ==>
        IsOutcome(Outcomes(lines[..i])[k]) && OutcomeOf(Outcomes(lines[..i])[k], version) == Some(records[k])
    {
      assert lines[..i + 1] == lines[..i] + [lines[i]];
      FilterAppend(IsOutcome, lines[..i], lines[i]);
      if lines[i] == NOT_REQUIRED_LINE {
        records := records + [Backup(None, true)];
      } else if StartsWith(lines[i], READY_PREFIX) {
        var path := lines[i][|READY_PREFIX|..];
        if !IsBackupPath(path, version) {
          UnsafeOutcome(lines, i, version);
          return None;
        }
        records := records + [Backup(Some(path), false)];
      }
    }
    assert lines[..|lines|] == lines;
    if |records| != 1 { return None; }
    assert Establishes(lines, version, records[0]);
    b := Some(records[0]);
  }

  /** One unsafe path spoils the log, whatever else it says. */
  lemma UnsafeOutcome(lines: seq<string>, i: nat, version: string)
    requires i < |lines| && IsOutcome(lines[i]) && OutcomeOf(lines[i], version).None?
    ensures forall r :: !Establishes(lines, version, r)
  {
    FilterKeeps(IsOutcome, lines, i);
  }

  // ----- payloads

  datatype Json = Null | Bool(b: bool) | Int(i: int) | Str(s: string)
  type Payload = map<string, Json>

  function Get(p: Payload, key: string): Option<Json> { if key in p then Some(p[key]) else None }

  /** launch_payload */
  function LaunchPayload(operation: string, version: string, digest: string): Payload {
    map["schema" := Int(SCHEMA), "operation_id" := Str(operation), "version" := Str(version),
        "expected_control_plane_sha256" := Str(digest), "started" := Bool(true)]
  }

  /** worker_status */
  function WorkerStatus(operation: string, version: string, digest: string, exitCode: int, backup: Option<Backup>): Payload {
    map["schema" := Int(SCHEMA), "operation_id" := Str(operation), "version" := Str(version),
        "expected_control_plane_sha256" := Str(digest), "exit_code" := Int(exitCode),
        "database_backup" := if backup.Some? && backup.value.path.Some? then Str(backup.value.path.value) else Null,
        "database_backup_not_required" := Bool(backup.Some? && backup.value.notRequired),
        "finished" := Bool(true)]
  }

  predicate HasMetadata(p: Payload, operation: string, version: string, digest: string) {
    && Get(p, "schema") == Some(Int(SCHEMA)) && Get(p, "operation_id") == Some(Str(operation))
    && Get(p, "version") == Some(Str(version)) && Get(p, "expected_control_plane_sha256") == Some(Str(digest))
    && Get(p, "finished") == Some(Bool(true))
  }

  /** What a status says about the backup. */
  function ReportedBackup(p: Payload): Option<Backup> {
    match Get(p, "database_backup")
    case Some(Str(path)) => Some(Backup(Some(path), false))
    case _ => if Get(p, "database_backup_not_required") == Some(Bool(true)) then Some(Backup(None, true)) else None
  }

  /** Everything put into a status can be read back from it. */
  lemma StatusRoundTrip(operation: string, version: string, digest: string, exitCode: int, backup: Option<Backup>)
    requires backup.Some? ==> (backup.value.notRequired <==> backup.value.path.None?)
    ensures var p := WorkerStatus(operation, version, digest, exitCode, backup);
      && HasMetadata(p, operation, version, digest) && Get(p, "exit_code") == Some(Int(exitCode))
      && ReportedBackup(p) == backup
  {
  }

  /** What a status must establish about the backup, given its exit code. */
  predicate EstablishesBackup(p: Payload, version: string, exitCode: int) {
    var path, notRequired := Get(p, "database_backup"), Get(p, "database_backup_not_required");
    || (path.Some? && path.value.Str? && notRequired == Some(Bool(false)) && IsVersion(version) && IsBackupPath(path.value.s, version))
    || ((path == None || path == Some(Null)) && notRequired == Some(Bool(true)))
    || (exitCode != 0 && (path == None || path == Some(Null)) && notRequired == Some(Bool(false)))
  }

  /** What validate_worker_status promises its callers. */
  predicate Acceptable(p: Payload, operation: string, version: string, digest: string) {
    && IsSha256(digest) && HasMetadata(p, operation, version, digest)
    && "exit_code" in p && p["exit_code"].Int? && 0 <= p["exit_code"].i <= 255
    && EstablishesBackup(p, version, p["exit_code"].i)
  }

  lemma VersionIsOneLine(version: string)
    requires IsVersion(version)
    ensures OneLine(version)
  {
  }

  lemma BackupPathIsOneLine(path: string, version: string)
    requires IsVersion(version) && IsBackupPath(path, version)
    ensures OneLine(path)
  {
    var n := |BACKUP_DIR|;
    VersionIsOneLine(version);
    var date, time := path[n..n + 8], path[n + 9..n + 21];
    ConcatOneLine("/opt/p2p-transmission/", "deploy/production/");
    ConcatOneLine("/opt/p2p-transmission/" + "deploy/production/", "backups/control-");
    assert OneLine(date) && OneLine(time);
    ConcatOneLine(BACKUP_DIR, date);
    ConcatOneLine(BACKUP_DIR + date, "T");
    ConcatOneLine(BACKUP_DIR + date + "T", time);
    ConcatOneLine(BACKUP_DIR + date + "T" + time, "Z-");
    ConcatOneLine(BACKUP_DIR + date + "T" + time + "Z-", version);
    ConcatOneLine(BACKUP_DIR + date + "T" + time + "Z-" + version, SUFFIX);
  }

  lemma ConcatOneLine(a: string, b: string)
    requires OneLine(a) && OneLine(b)
    ensures OneLine(a + b)
  {
  }

  /** The validator re-parses a reported path as a log line: that succeeds with the same
      path exactly when the path has the expected form. */
  lemma ReparseMeans(path: string, version: string)
    requires IsVersion(version)
    ensures IsBackupPath(path, version) <==>
      exists r :: Establishes(SplitLines(READY_PREFIX + path + "\n"), version, r) && r.path == Some(path)
  {
    var lines := SplitLines(READY_PREFIX + path + "\n");
    if IsBackupPath(path, version) {
      ReparseFinds(path, version);
    } else if r :| Establishes(lines, version, r) && r.path == Some(path) {
      ReparseOnlyFinds(path, version, r);
    }
  }

  lemma ReparseFinds(path: string, version: string)
    requires IsVersion(version) && IsBackupPath(path, version)
    ensures Establishes(SplitLines(READY_PREFIX + path + "\n"), version, Backup(Some(path), false))
  {
    var line := READY_PREFIX + path;
    BackupPathIsOneLine(path, version);
    ConcatOneLine(SUBJECT, "backup ready: ");
    ConcatOneLine(READY_PREFIX, path);
    SplitOne(line);
    assert |SUBJECT| == 20;
    assert line[20] == 'b' && NOT_REQUIRED_LINE[20] == 'i';
    assert line[|READY_PREFIX|..] == path;
    var alone: seq<string> := [line];
    assert IsOutcome(line) && alone[1..] == [];
    assert Filter(IsOutcome, alone) == [line] + Filter(IsOutcome, alone[1..]) == alone;
  }

  lemma ReparseOnlyFinds(path: string, version: string, r: Backup)
    requires Establishes(SplitLines(READY_PREFIX + path + "\n"), version, r) && r.path == Some(path)
    ensures IsBackupPath(path, version)
  {
  }

  /** validate_worker_status */
  method ValidateWorkerStatus(p: Payload, operation: string, version: string, digest: string) returns (ok: bool)
    ensures ok <==> Acceptable(p, operation, version, digest)
  {
    if !IsSha256(digest) || !HasMetadata(p, operation, version, digest) || "exit_code" !in p || !p["exit_code"].Int? {
      return false;
    }
    var exitCode := p["exit_code"].i;
    if !(0 <= exitCode <= 255) { return false; }
    var path, notRequired := Get(p, "database_backup"), Get(p, "database_backup_not_required");
    if path.Some? && path.value.Str? && notRequired == Some(Bool(false)) {
      var parsed := ParseBackupLog(READY_PREFIX + path.value.s + "\n", version);
      if IsVersion(version) { ReparseMeans(path.value.s, version); }
      return parsed.Some? && parsed.value.path == Some(path.value.s);
    }
    var absent := path == None || path == Some(Null);
    ok := (absent && notRequired == Some(Bool(true))) || (exitCode != 0 && absent && notRequired == Some(Bool(false)));
  }

  // ----- the worker

  /** How far the worker got before it ran the stage wrapper. */
  datatype Setup = Clear | GlobalLockBusy | Broken

  /** What the worker met: its setup, the wrapper's return code if it ran, the log it could or
      could not read back, and whether its own log lines and its status could be written. */
  datatype Encounter = Encounter(
    setup: Setup, returncode: Option<int>, log: Option<string>, noteWritten: bool, exitLineWritten: bool, persisted: bool)

  /** normalize_subprocess_returncode; None is a SupervisorError. */
  function Normalize(returncode: int): Option<int> {
    var n := if returncode < 0 then 128 - returncode else returncode;
    if 0 <= n <= 255 then Some(n) else None
  }

  /** A code in range is itself, a signal is 128 plus its number, anything else an error. */
  lemma NormalizeMeans(returncode: int)
    ensures 0 <= returncode <= 255 ==> Normalize(returncode) == Some(returncode)
    ensures -127 <= returncode < 0 ==> Normalize(returncode) == Some(128 + -returncode)
    ensures returncode < -127 || returncode > 255 ==> Normalize(returncode).None?
    ensures Normalize(returncode) == Some(0) <==> returncode == 0
  {
  }

  /** The wrapper exited zero and its log held exactly one well-formed backup outcome. */
  ghost predicate Succeeded(e: Encounter, version: string) {
    && e.setup.Clear? && e.returncode == Some(0) && e.log.Some? && e.exitLineWritten
    && exists b :: Establishes(SplitLines(e.log.value), version, b)
  }

  /** A status as some process wrote it: a worker after an encounter, or a starter that
      could not spawn one, each under its own operation, version and digest. */
  ghost predicate WrittenBy(p: Payload, operation: string, version: string, digest: string, e: Encounter) {
    exists exitCode, backup ::
      p == WorkerStatus(operation, version, digest, exitCode, backup) && Reports(e, version, exitCode, backup)
  }

  /** The wrapper ran to an exit status that can be reported. */
  ghost predicate Finished(e: Encounter) { e.setup.Clear? && e.returncode.Some? && Normalize(e.returncode.value).Some? }

  ghost predicate HasOutcome(e: Encounter, version: string) {
    e.log.Some? && exists b :: Establishes(SplitLines(e.log.value), version, b)
  }

  /** What a worker must report of an encounter: zero exactly for a success, its own codes for a
      busy lock and for anything that broke, the wrapper's code otherwise; and the backup
      outcome whenever the log establishes one. */
  ghost predicate Reports(e: Encounter, version: string, exitCode: int, backup: Option<Backup>) {
    && 0 <= exitCode <= 255
    && (exitCode == 0 <==> Succeeded(e, version))
    && (e.setup == GlobalLockBusy ==> exitCode == WORKER_LOCKED)
    && (e.setup == Broken || (e.setup.Clear? && !Finished(e)) ==> exitCode == WORKER_INTERNAL_ERROR)
    && (Finished(e) && e.exitLineWritten && (HasOutcome(e, version) || e.noteWritten) && e.returncode.value != 0 ==>
          Some(exitCode) == Normalize(e.returncode.value))
    && (Finished(e) && (!e.exitLineWritten || (!HasOutcome(e, version) && (!e.noteWritten || e.returncode.value == 0))) ==>
          exitCode == WORKER_INTERNAL_ERROR)
    && (backup.Some? <==> Finished(e) && HasOutcome(e, version))
    && (backup.Some? ==> Establishes(SplitLines(e.log.value), version, backup.value))
  }

  /** The arguments pass the validation every subcommand begins with. */
  predicate Admissible(operation: string, version: string, digest: string) {
    IsOperationId(operation) && IsVersion(version) && IsSha256(digest)
  }

  /** The try block of run_worker and its handlers: the exit code and the backup outcome. */
  method Conclude(version: string, e: Encounter) returns (exitCode: int, backup: Option<Backup>)
    requires IsVersion(version)
    ensures Reports(e, version, exitCode, backup)
  {
    exitCode, backup := WORKER_INTERNAL_ERROR, None;
    if e.setup == GlobalLockBusy { return WORKER_LOCKED, None; }
    if e.setup == Broken || e.returncode.None? { return; }
    var normalized := Normalize(e.returncode.value);
    if normalized.None? { return; }
    exitCode := normalized.value;
    var noted := true;
    if e.log.Some? { backup := ParseBackupLog(e.log.value, version); }
    if backup.None? {
      noted := e.noteWritten;
      if exitCode == 0 { exitCode := WORKER_INTERNAL_ERROR; }
    }
    if !noted || !e.exitLineWritten { exitCode := WORKER_INTERNAL_ERROR; }
  }

  /** run_worker: the status it leaves behind, if it can leave one. */
  method RunWorker(operation: string, version: string, digest: string, e: Encounter) returns (status: Option<Payload>)
    ensures status.Some? <==> e.persisted && Admissible(operation, version, digest)
    ensures status.Some? ==> Acceptable(status.value, operation, version, digest)
    ensures status.Some? ==> WrittenBy(status.value, operation, version, digest, e)
  {
    if !Admissible(operation, version, digest) { return None; }
    var exitCode, backup := Conclude(version, e);
    if backup.Some? { EstablishedPath(SplitLines(e.log.value), version, backup.value); }
    status := if e.persisted then Some(WorkerStatus(operation, version, digest, exitCode, backup)) else None;
  }

  /** An established outcome is either a path of the expected form or "not required". */
  lemma EstablishedPath(lines: seq<string>, version: string, b: Backup)
    requires Establishes(lines, version, b)
    ensures b.notRequired <==> b.path.None?
    ensures b.path.Some? ==> IsBackupPath(b.path.value, version)
  {
  }

  // ----- waiting

  /** What one poll of `wait` finds.  `launch` and `status` are None when unreadable. */
  datatype Poll = Poll(
    statusExists: bool, status: Option<Payload>, launchExists: bool, launch: Option<Payload>,
    active: bool, deadlinePassed: bool, workerState: bool, artifacts: bool, pidReadable: bool)

  /** A poll that shows a finished, successful worker of exactly this operation. */
  predicate ShowsSuccess(v: Poll, operation: string, version: string, digest: string) {
    && v.statusExists && v.status.Some? && v.launch == Some(LaunchPayload(operation, version, digest))
    && Acceptable(v.status.value, operation, version, digest) && v.status.value["exit_code"] == Int(0)
  }

  /** The operation is under way and there is time left. */
  predicate Undecided(v: Poll) { !v.statusExists && v.active && !v.deadlinePassed }

  /** The status found is one of this operation's worker. */
  predicate ShowsStatus(v: Poll, operation: string, version: string, digest: string) {
    && v.status.Some? && v.launch == Some(LaunchPayload(operation, version, digest))
    && Acceptable(v.status.value, operation, version, digest)
  }

  /** wait_for_worker over the polls it makes; polls that end without a verdict are a
      timeout, and None is the error for arguments that are not admissible. */
  method Wait(polls: seq<Poll>, operation: string, version: string, digest: string) returns (code: Option<int>)
    ensures code.None? <==> !Admissible(operation, version, digest)
    ensures code.Some? ==> (code == Some(0) <==>
      exists i :: 0 <= i < |polls| && ShowsSuccess(polls[i], operation, version, digest) && forall j :: 0 <= j < i ==> Undecided(polls[j]))
    ensures code.Some? && (forall i :: 0 <= i < |polls| ==> Undecided(polls[i])) ==> code == Some(WAIT_TIMEOUT)
    ensures code.Some? ==>
      code.value in {0, WAIT_STATE_MISSING, WAIT_TIMEOUT, WAIT_DEPLOY_FAILED, WAIT_STATE_INVALID, WAIT_WORKER_LOCKED}
  {
    if !Admissible(operation, version, digest) { return None; }
    for i := 0 to |polls|
      invariant forall j :: 0 <= j < i ==> Undecided(polls[j])
    {
      var v := polls[i];
      var verdict := Judge(v, operation, version, digest);
      if verdict.Some? { return verdict; }
    }
    code := Some(WAIT_TIMEOUT);
  }

  /** One turn of the polling loop; None is another turn. */
  method Judge(v: Poll, operation: string, version: string, digest: string) returns (code: Option<int>)
    ensures code == Some(0) <==> ShowsSuccess(v, operation, version, digest)
    ensures code.None? <==> Undecided(v)
    ensures v.statusExists && !ShowsStatus(v, operation, version, digest) ==> code == Some(WAIT_STATE_INVALID)
    ensures v.statusExists && ShowsStatus(v, operation, version, digest) && v.status.value["exit_code"] != Int(0) ==>
      code == Some(if v.status.value["exit_code"] == Int(WORKER_LOCKED) then WAIT_WORKER_LOCKED else WAIT_DEPLOY_FAILED)
    ensures !v.statusExists && v.active && v.deadlinePassed ==> code == Some(WAIT_TIMEOUT)
    ensures code == Some(WAIT_STATE_MISSING) <==> !v.statusExists && !v.active && !v.launchExists && !v.workerState && !v.artifacts
    ensures !v.statusExists && !v.active && v.launchExists && v.launch.Some? ==>
      code == Some(if v.launch == Some(LaunchPayload(operation, version, digest)) && v.pidReadable then WAIT_DEPLOY_FAILED else WAIT_STATE_INVALID)
    ensures !v.statusExists && !v.active && v.workerState && (!v.launchExists || v.launch.None?) ==> code == Some(WAIT_STATE_INVALID)
    ensures !v.statusExists && !v.active && !v.workerState && (if v.launchExists then v.launch.None? else v.artifacts) ==>
      code == Some(WAIT_DEPLOY_FAILED)
    ensures code.Some? ==>
      code.value in {0, WAIT_STATE_MISSING, WAIT_TIMEOUT, WAIT_DEPLOY_FAILED, WAIT_STATE_INVALID, WAIT_WORKER_LOCKED}
  {
    var bound := v.launch == Some(LaunchPayload(operation, version, digest));
    if v.statusExists {
      if !bound || v.status.None? { return Some(WAIT_STATE_INVALID); }
      var valid := ValidateWorkerStatus(v.status.value, operation, version, digest);
      if !valid { return Some(WAIT_STATE_INVALID); }
      var exitCode := v.status.value["exit_code"].i;
      return Some(if exitCode == 0 then 0 else if exitCode == WORKER_LOCKED then WAIT_WORKER_LOCKED else WAIT_DEPLOY_FAILED);
    }
    if v.active { return if v.deadlinePassed then Some(WAIT_TIMEOUT) else None; }
    if !v.launchExists {
      return Some(if v.workerState then WAIT_STATE_INVALID else if v.artifacts then WAIT_DEPLOY_FAILED else WAIT_STATE_MISSING);
    }
    if v.launch.None? { return Some(if v.workerState then WAIT_STATE_INVALID else WAIT_DEPLOY_FAILED); }
    code := Some(if !bound || !v.pidReadable then WAIT_STATE_INVALID else WAIT_DEPLOY_FAILED);
  }

  /** A zero is never about somebody else: the status that produced it was written for the
      same operation, version and digest, by a worker that saw the wrapper exit zero and
      one backup outcome in its log. */
  lemma ZeroMeansThisWorkerSucceeded(
    v: Poll, operation: string, version: string, digest: string,
    writerOperation: string, writerVersion: string, writerDigest: string, e: Encounter)
    requires ShowsSuccess(v, operation, version, digest)
    requires WrittenBy(v.status.value, writerOperation, writerVersion, writerDigest, e)
    ensures writerOperation == operation && writerVersion == version && writerDigest == digest
    ensures Succeeded(e, version)
  {
    var p := v.status.value;
    var exitCode, backup :| p == WorkerStatus(writerOperation, writerVersion, writerDigest, exitCode, backup)
      && Reports(e, writerVersion, exitCode, backup);
    assert p["operation_id"] == Str(writerOperation) && p["version"] == Str(writerVersion);
    assert p["expected_control_plane_sha256"] == Str(writerDigest) && p["exit_code"] == Int(exitCode);
  }
}
