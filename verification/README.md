# Release control plane, realtime client and friends: a Dafny model

This project models the parts of the p2p-transmission repository that have to stay right
when something goes wrong: a deployment helper that may die between any two steps, a
supervisor made of several processes around one lock, a browser client that hears messages
late, twice, out of order or never, and four self-contained algorithms of the server and its
tools.  What the code promises about them is proved for all inputs, all runs and all
interleavings.

## How it is modelled

- **Database install** (`DatabaseInstall.dfy`).  The data directory is a map from paths to
  contents.  Each file step succeeds, fails without effect, or coincides with a crash before or
  after it.  A crash is an exit of the method, so a postcondition holds at every crash point.
- **Control plane** (`ControlPlane.dfy`, `Base64.dfy`).  One object holds the runtime files, the
  pending record, snapshots, backups, the container and the data directory.  Stage, finalize,
  rollback and maintenance are methods over it; container commands and probes are
  nondeterministic, and a running container may write the database.  The ghost history records
  when a staged or previous container may have started, when the database was replaced and when
  the release was closed.
- **Faults.**  `faultsLeft` bounds how many steps may still fail or crash, without fixing where.
  Every contract says that success costs no fault and that anything else costs one, so "nothing
  fails without a fault", "a single fault is undone completely" and "more attempts than faults
  succeed" are all statements about it.  A crash sets `crashed`, and no step of a crashed process
  can be taken until a new invocation begins.
- **Realtime client** (`RealtimeSession.dfy`, `RealtimeConnection.dfy`).  The server is a log with
  one entry per revision and the set of snapshots it has given out.  `Rc` allocations are numbers
  never handed out twice.
- **RTC recovery** (`RtcRecovery.dfy`).  Work and instance generations wrap at 2^64.
- **Supervisor** (`SupervisorLock.dfy`, `SupervisorStatus.dfy`, `Text.dfy`).  The lock protocol
  involves several processes, so it is a transition system with one action of one process at a
  time; a lock belongs to an open file description.
- **Algorithms** (`RateLimiter.dfy`, `WebShell.dfy` with `Substring.dfy`, `LogTail.dfy`,
  `InviteLink.dfy`).

## Promises that do not hold everywhere

- A rollback that reports success restores the runtime files after a stage if and only if the
  stage left a record or had not yet replaced the Compose file (`StageThenRollBack`).  Between
  source extraction and the writing of the record a crash leaves the new Compose file, the next
  invocation deletes the abandoned snapshot, and rollback then succeeds without doing anything
  (`ExtractionCrashIsNotRolledBack`).
- Cleanup excludes a living worker process if and only if the worker has its lock
  (`CleanupMeetsOnlyUnlockedWorkers`).  A worker whose adoption failed has closed the descriptor
  and still writes its status (`UnadoptedWorkerOutlivesCleanup`).
- The rate limiter's bound holds up to a time if and only if that time is before the last
  millisecond of the clock (`QuotaHoldsUntilTheEnd`).
- The token laws need counters that do not lap: a token matches a peer that was kept exactly after
  a multiple of 2^64 bumps (`KeptPeerMatches`), and both counters can lap (`LappedTokenReturns`,
  `ReplacedTokenReturns`).

## Model

| member | source | states |
|---|---|---|
| DatabaseInstall.MidIsSafe | deploy/scripts/deploy_control_plane/database.py:160-191 | In every state the install passes through before the new image is verified, forward or backward, each original file is at its own path or in its quarantine, and if no artifact is left the live triple is the original or the image alone |
| DatabaseInstall.CleaningIsSettled | deploy/scripts/deploy_control_plane/database.py:193-205 | While the quarantine is being emptied the live triple is the image alone |
| DatabaseInstall.QuarantineOne | deploy/scripts/deploy_control_plane/database.py:163-166 | Renaming a live file into quarantine is a step between such states; the file was an original not yet moved |
| DatabaseInstall.Publish | deploy/scripts/deploy_control_plane/database.py:167-168 | Publishing the prepared copy is such a step once every original is away |
| DatabaseInstall.BringBackOne | deploy/scripts/deploy_control_plane/database.py:181-182 | Renaming a quarantined file back over the published image is such a step |
| DatabaseInstall.DropPublished | deploy/scripts/deploy_control_plane/database.py:177-180 | Unlinking a published file where nothing was before is such a step |
| DatabaseInstall.DropPrepared | deploy/scripts/deploy_control_plane/database.py:190 | Unlinking the prepared copy is such a step |
| DatabaseInstall.DropQuarantine | deploy/scripts/deploy_control_plane/database.py:194-196 | Emptying one quarantine slot keeps the image alone live |
| DatabaseInstall.PreparedState | deploy/scripts/deploy_control_plane/database.py:60-83 | However the copy of the image ended, the directory is the original one, with or without the prepared file |
| DatabaseInstall.DataDirectory.Replace | deploy/scripts/deploy_control_plane/database.py:165 | os.replace takes effect wholly or not at all; a missing source fails |
| DatabaseInstall.DataDirectory.Verify | deploy/scripts/deploy_control_plane/database.py:34-42 | Records which path was checked; a live main file counts as verified only through it |
| DatabaseInstall.DataDirectory.CopyDatabase | deploy/scripts/deploy_control_plane/database.py:60-83 | A failed copy leaves at most its temporary, and nothing at all if nothing else fails; a successful one exactly the prepared file |
| DatabaseInstall.DataDirectory.HasArtifacts | deploy/scripts/deploy_control_plane/database.py:125-130 | Finds an artifact exactly when one of the two glob families has a member |
| DatabaseInstall.DataDirectory.Prepare | deploy/scripts/deploy_control_plane/database.py:147-158 | No live file is touched; True means the prepared copy was checked; False, the answer to any single fault, leaves no prepared file behind |
| DatabaseInstall.DataDirectory.MoveAside | deploy/scripts/deploy_control_plane/database.py:160-166 | At every exit the files moved are exactly the quarantined ones; on completion all originals are away |
| DatabaseInstall.DataDirectory.DropWhereNothingWas | deploy/scripts/deploy_control_plane/database.py:175-180 | After it, the published image is still live only if an original main file exists to replace it |
| DatabaseInstall.DataDirectory.BringBack | deploy/scripts/deploy_control_plane/database.py:181-183 | On completion nothing is quarantined and nothing published remains |
| DatabaseInstall.DataDirectory.Undo | deploy/scripts/deploy_control_plane/database.py:172-189 | The whole exception path stays within the safe states and restores the original unless a further step fails |
| DatabaseInstall.DataDirectory.Publishing | deploy/scripts/deploy_control_plane/database.py:160-191 | True means image alone, checked, with all originals quarantined; after a single fault the answer is False and everything is back where it was; every other exit is a safe state |
| DatabaseInstall.DataDirectory.EmptyQuarantine | deploy/scripts/deploy_control_plane/database.py:193-206 | True means no artifact and the image alone |
| DatabaseInstall.DataDirectory.Install | deploy/scripts/deploy_control_plane/database.py:132-206 | At every return, exception and crash point: settled when no artifact remains, originals kept until verification, True means verified, image alone, no artifact; a single fault before verification is undone completely; refuses without effect when artifacts exist; succeeds when no step fails |
| DatabaseInstall.DataDirectory.RemoveLive | deploy/scripts/deploy_control_plane/database.py:114-123 | True means no live file; otherwise only live files can have gone |
| DatabaseInstall.DataDirectory.RestoreDatabase | deploy/scripts/deploy_control_plane/database.py:208-236 | True means the backup alone, or no database when there was none; a single fault before verification leaves the original; artifacts make it refuse without effect |
| DatabaseInstall.DataDirectory.RestoreUntilDone | deploy/scripts/deploy_control_plane/database.py:208-236 | Over any number of interrupted attempts the database is never half replaced without an artifact, every byte of the first original is at its own path or in one quarantine until some attempt has verified the image, and success leaves the image alone |
| Base64.RoundTrip | deploy/scripts/deploy_control_plane/release_state.py:344 | Every environment survives encoding into the record and strict decoding out of it (section 4 of RFC 4648) |
| Base64.DecodeStep | deploy/scripts/deploy_control_plane/release_state.py:422 | Strict decoding takes a full group off the front of a decodable text |
| ControlPlane.ParseRender | deploy/scripts/deploy_control_plane/release_state.py:332-355 | A written record loads back as the same preflight, unless it claims a restore before the switch phase |
| ControlPlane.StartedMeans | deploy/scripts/deploy_control_plane/runtime.py:400-423 | The invariant's notion of a started previous container is: a start event with no close after it |
| ControlPlane.NoReplayMeans | deploy/scripts/deploy_control_plane/runtime.py:400-408 | The invariant is: between a start of the previous container and a later replacement of the database the release was closed |
| ControlPlane.HistoryGrows | deploy/scripts/deploy_control_plane/runtime.py:400-408 | Appending an event keeps the no-replay property if a replacement comes only while nothing was started |
| ControlPlane.Production.WritePending | deploy/scripts/deploy_control_plane/release_state.py:355 | The record is replaced wholly or not at all, and a reported failure may follow the replacement |
| ControlPlane.Production.Containers | deploy/scripts/deploy_control_plane/runtime.py:222-262 | Whatever a container does to the database and itself, given as input, the invariant holds |
| ControlPlane.Production.Stop | deploy/scripts/deploy_control_plane/runtime.py:398 | A successful stop leaves no running container |
| ControlPlane.Production.Remove | deploy/scripts/deploy_control_plane/runtime.py:399 | A successful removal leaves no container, staged or other |
| ControlPlane.Production.Up | deploy/scripts/deploy_control_plane/runtime.py:480 | Starts the container the environment names if its image is there; only allowed once the record carries the flag for that phase |
| ControlPlane.Production.Answers | deploy/scripts/deploy_control_plane/runtime.py:297-310 | A positive probe means that release is running; missing a running one is a fault |
| ControlPlane.Production.ReloadNginx | deploy/scripts/deploy_control_plane/runtime.py:203-204 | Success means Nginx uses the file that is there |
| ControlPlane.Production.Load | deploy/scripts/deploy_control_plane/release_state.py:381-451 | Succeeds only on a record of that version whose snapshots and backup exist and whose environment decodes to its tag; does succeed then when nothing fails |
| ControlPlane.Production.MarkMayHaveChanged | deploy/scripts/deploy_control_plane/release_state.py:361-368 | Changes at most that one flag, durably on success, and keeps the invariant at every crash point |
| ControlPlane.Production.MarkRestored | deploy/scripts/deploy_control_plane/release_state.py:370-379 | Changes at most that one flag; callable only with no container and the wanted database content in place |
| ControlPlane.Production.CleanupSnapshots | deploy/scripts/deploy_control_plane/release_state.py:235-253 | Touches no other snapshot; True means the named ones are gone |
| ControlPlane.Production.Close | deploy/scripts/deploy_control_plane/release_state.py:528-535 | The record disappears before its snapshots, and success means exactly they are gone |
| ControlPlane.Production.CleanupAbandoned | deploy/scripts/deploy_control_plane/release_state.py:454-525 | Never removes a referenced snapshot; success leaves exactly the referenced ones |
| ControlPlane.Production.RestoreCompose | deploy/scripts/deploy_control_plane/runtime.py:211-212 | True means the Compose file equals the snapshot |
| ControlPlane.Production.RestoreNginx | deploy/scripts/deploy_control_plane/runtime.py:206-209 | True means the Nginx file equals the snapshot and Nginx uses it |
| ControlPlane.Production.RestoreFiles | deploy/scripts/deploy_control_plane/runtime.py:385-393 | True means environment, Compose and Nginx all equal the preflight |
| ControlPlane.Production.RestorePreRuntime | deploy/scripts/deploy_control_plane/runtime.py:428-454 | Success means the three files equal the preflight and the previous release is running; no container or database is touched |
| ControlPlane.Production.RestoreAndMark | deploy/scripts/deploy_control_plane/runtime.py:400-407 | Success means the restored mark is durable; every replacement is in the history; with the mark already set nothing is replaced |
| ControlPlane.Production.RestoreAndStart | deploy/scripts/deploy_control_plane/runtime.py:394-420 | The previous release starts only after the database is back and the mark durable; fails only through a fault or artifacts |
| ControlPlane.Production.RollbackRuntime | deploy/scripts/deploy_control_plane/runtime.py:384-426 | Success means the files found by the stage, the previous release running and the mark set; without artifacts it fails only through a fault; the invariant holds at every exit |
| ControlPlane.Production.RollbackRecorded | deploy/scripts/deploy_control_plane/runtime.py:456-467 | With the flag false, or with the previous release running and seen by the probe, neither database, container nor record changes; success means the files found by the stage and the previous release running |
| ControlPlane.Production.RollBackAndClose | deploy/scripts/deploy_control_plane/runtime.py:324-326 | The same through to the closing of the record; with the switch begun or the previous release running it fails only through a fault or artifacts |
| ControlPlane.Production.RollbackPending | deploy/scripts/deploy_control_plane/runtime.py:318-327 | With a record, success or a crash after its removal means the runtime files the stage found and the previous release running; without one it succeeds and changes nothing, so after a stage that left no record the files are the old ones if and only if the Compose file had not been replaced |
| ControlPlane.Production.Finalize | deploy/scripts/deploy_control_plane/runtime.py:312-316 | Success means the staged release answers and record and snapshots are gone |
| ControlPlane.Production.Snapshot | deploy/scripts/deploy_control_plane/release_state.py:180-200 | Success adds one new file with that content, a single fault leaves none; no other snapshot changes |
| ControlPlane.Production.BackUp | deploy/scripts/deploy_control_plane/database.py:238-310 | Refuses artifacts; None exactly when there is no database; otherwise the new backup holds its materialized content and exactly the newest ten of all backups remain, unchanged |
| ControlPlane.Production.PruneBackups | deploy/scripts/deploy_control_plane/database.py:304-307 | Whatever unlink fails or crashes, nothing but old backups disappears; success leaves exactly the newest ten |
| ControlPlane.NewestStays | deploy/scripts/deploy_control_plane/database.py:304-306 | A backup survives the pruning if and only if fewer than ten are newer |
| ControlPlane.Production.TakePreflight | deploy/scripts/deploy_control_plane/runtime.py:329-373 | Success captures environment, tag, both snapshots and the backup of the current state, with both images there; a single fault leaves no snapshot |
| ControlPlane.Production.Switch | deploy/scripts/deploy_control_plane/runtime.py:474-482 | Success means flag set, new environment and Nginx in use, staged release running; without a record nothing has changed; the staged container starts only after the flag is durable; an environment that does not name the release fails with the flag set |
| ControlPlane.Production.Reconcile | deploy/scripts/deploy_control_plane/runtime.py:483-499 | Success after a failed switch means no record, the files found by the stage, the previous release running, no snapshot left; it fails only through a fault or artifacts; wherever it stops without a record each file is as it was or as found |
| ControlPlane.Production.AbortUnrecorded | deploy/scripts/deploy_control_plane/runtime.py:490-497 | Without a record only files are put back; success means they and the running previous release are as found |
| ControlPlane.Production.ExtractOrRestore | deploy/scripts/deploy_control_plane/cli.py:48-58 | A failed extraction puts the Compose file back and removes the snapshots unless a further step fails |
| ControlPlane.Production.DeployProduction | deploy/scripts/deploy_control_plane/runtime.py:469-500 | A failed switch is reconciled at once: after a single fault, or an environment that does not name the release, the previous release runs again and nothing is left |
| ControlPlane.Production.Deploy | deploy/scripts/deploy_control_plane/cli.py:21-68 | Refuses a pending release; success means the staged state with its record; a failure from a single fault leaves the host exactly as found with the previous release running; wherever it stops without a record, environment and Nginx are as found and the Compose file is the one found or the archived one |
| ControlPlane.Production.Invoke | deploy/scripts/deploy_control_plane/cli.py:168-187 | Each of the four commands, wherever it stops, keeps the invariant and only extends the history, with the whole outcome of stage, rollback, finalize and maintenance stated; a rollback never discards what a running previous release has written |
| ControlPlane.Production.RollBackUntilDone | deploy/scripts/deploy_control_plane/runtime.py:318-327 | From any reachable state with a record, after any number of failed or interrupted attempts, success means no record, the runtime files the stage found and the container of the previous release, running if the successful attempt itself found the record; once the switch has begun and the database files are whole, more attempts than faults are enough |
| ControlPlane.Production.StageThenRollBack | deploy/scripts/deploy_control_plane/cli.py:48-60 | The exact condition of the uncovered window: after a stage cut short anywhere and rollbacks until one reports success, the runtime files are those found if and only if the stage left a record or had not replaced the Compose file |
| ControlPlane.Production.Operate | deploy/scripts/deploy_control_plane/cli.py:168-187 | Over every sequence of invocations, failures, crashes and container activity: a record implies its snapshots and backup, restored implies may-have-changed, a staged container implies the flag, no backup is replayed in the whole history after the previous container could start, and that start sees exactly the backup |
| ControlPlane.ExtractionCrashIsNotRolledBack | deploy/scripts/deploy_control_plane/cli.py:48-60 | A concrete run: a stage dies between extraction and the record; the next rollback reports success, the Compose file stays new and the only old copy is deleted |
| RealtimeSession.ReplayStable | rust/apps/web/src/realtime_event_reducer.rs:119-234 | Replaying up to a revision does not depend on what the server logs later |
| RealtimeSession.ExplainsNext | rust/apps/web/src/realtime_event_reducer.rs:119-234 | Applying the next log entry to an explained view gives an explained view |
| RealtimeSession.ExplainsStable | rust/apps/web/src/realtime_session.rs:146-183 | A view stays explained while the server moves on |
| RealtimeSession.ExplainsIssued | rust/apps/web/src/realtime_event_reducer.rs:298-345 | An authoritative snapshot explains itself |
| RealtimeSession.ReplaySplit | rust/apps/web/src/realtime_event_reducer.rs:119-234 | Replaying in two stretches is replaying once |
| RealtimeSession.OwnersConverge | rust/apps/web/src/realtime_session.rs:146-200 | If the server's snapshots follow from its log, all owners at one revision see the same room |
| RealtimeSession.PresenceMeans | rust/apps/web/src/realtime_event_reducer.rs:184-191 | A presence event changes exactly the first participant of the session |
| RealtimeSession.AfterMeans | rust/apps/web/src/realtime_event_reducer.rs:119-234 | Each event changes the room as its name says and nothing else, said on the fields: a request is added once, exactly the decided requests go, exactly the first participant of the session changes |
| RealtimeSession.WithoutRequestKeepsOrder | rust/apps/web/src/realtime_event_reducer.rs:169-171 | Removing a decided request keeps the order of the others |
| RealtimeSession.PeerOfMeans | rust/apps/web/src/realtime_event_reducer.rs:206-215 | The peer of the first participant of the session |
| RealtimeSession.WithoutMeans | rust/apps/web/src/realtime_event_reducer.rs:325-337 | The arrivals are the online receivers that were not online before |
| RealtimeSession.OnlineReceiversMeans | rust/apps/web/src/realtime_event_reducer.rs:314-321 | The online receivers are exactly those participants |
| RealtimeSession.Session.InitialRevision | rust/apps/web/src/realtime_target.rs:85-108 | A reconnect announces the applied revision, never more than the screen shows |
| RealtimeSession.Session.ReduceSnapshot | rust/apps/web/src/realtime_event_reducer.rs:298-345 | Refuses exactly older snapshots; otherwise replaces the room and reports exactly the receivers that came online |
| RealtimeSession.Session.ApplySnapshot | rust/apps/web/src/realtime_session.rs:146-183 | Accepted if and only if the lease is current and the revision is below neither screen nor cursor; acceptance clears the wait; a snapshot at the server's revision is always accepted |
| RealtimeSession.Session.ApplyDecisionSnapshot | rust/apps/web/src/join_request.rs:139-145 | Only while the decision is the current one of the current target, the fetched snapshot replaces an older view without the cursor and the decision ends; otherwise nothing changes; the invariant holds |
| RealtimeSession.Session.SubmitDecision | rust/apps/web/src/join_request.rs:98-125 | A decision is asked exactly when none is under way, on a room with a live target |
| RealtimeSession.Session.HandleAttachment | rust/apps/web/src/realtime_session.rs:331-372 | Waits for a snapshot exactly when the revisions differ; applied becomes the screen's revision |
| RealtimeSession.Session.BeginEvent | rust/apps/web/src/realtime_session.rs:35-50 | Classifies the event, records it as observed, and marks a wait exactly on a gap |
| RealtimeSession.Session.ReduceEvent | rust/apps/web/src/realtime_event_reducer.rs:119-234 | The room advances as the event says on every field; a receiver ignores join requests; a waiting page reacts only to its own request; exactly which effects follow |
| RealtimeSession.Session.ApplyEffects | rust/apps/web/src/realtime_session.rs:408-482 | Marks applied revisions in the cursor; a return to the lobby ends the target and skips the rest |
| RealtimeSession.Session.HandleEvent | rust/apps/web/src/realtime_session.rs:392-406 | The page advances by exactly the next log entry, with the whole cursor stated, and is untouched by duplicates, stale events and gaps |
| RealtimeSession.Session.HandleExpired | rust/apps/web/src/realtime_event_reducer.rs:236-245 | Expiry ends the session exactly when its revision is not behind the screen |
| RealtimeSession.Session.Happen | rust/apps/web/src/realtime_session.rs:202-329 | Any truthful message keeps the invariant and moves nothing backwards; what each kind of message brings about |
| RealtimeSession.Session.Live | rust/apps/web/src/realtime_session.rs:202-329 | Over every delivery order with duplicates, losses and stale snapshots: applied <= screen <= server, applied <= last <= server, nothing goes backwards, an owner's room is an issued snapshot plus the later events once each in order; a snapshot of the present revision ends every wait |
| RealtimeConnection.DeadLeaseStaysDead | rust/apps/web/src/realtime_connection.rs:79-90 | In every run, a lease that has once stopped being current never becomes current again |
| RealtimeConnection.WhatEndsALease | rust/apps/web/src/realtime_connection.rs:36-154 | A current lease ends exactly through a new connection, an invalidation or its suppression |
| RealtimeConnection.OneClaimPerToken | rust/apps/web/src/realtime_connection.rs:101-126 | In every run, all tickets sharing a retry token yield at most one successful claim |
| RealtimeConnection.SpentToken | rust/apps/web/src/realtime_connection.rs:110-126 | A replaced retry token is never claimed |
| RealtimeConnection.WhatRenewsTheToken | rust/apps/web/src/realtime_connection.rs:36-126 | The retry token changes exactly through a new target, a connection or a claim |
| RealtimeConnection.BackoffCountsClaims | rust/apps/web/src/realtime_connection.rs:92-126 | In every run the backoff is the number of claims since the last connection or new target, up to the counter's end |
| RealtimeConnection.SuppressionHolds | rust/apps/web/src/realtime_connection.rs:128-154 | A suppressed target stays suppressed and gets no lease until begin has seen a different target |
| RealtimeConnection.OtherTargetLifts | rust/apps/web/src/realtime_connection.rs:36-62 | A begin with a different target lifts the suppression |
| RealtimeConnection.DelayIsBounded | rust/apps/web/src/realtime_connection.rs:167-171 | Retry delays are monotone, double up to the fourth attempt, and stay between 500 and 8000 ms |
| RealtimeConnection.RealtimeConnectionState.BeginConnection | rust/apps/web/src/realtime_connection.rs:36-62 | New generation always; backoff, token and suppression reset exactly on a different target; a lease exactly when there is an unsuppressed target |
| RealtimeConnection.RealtimeConnectionState.CurrentLease | rust/apps/web/src/realtime_connection.rs:64-77 | Hands out a current lease, or none exists for that target |
| RealtimeConnection.RealtimeConnectionState.LeaseIsCurrent | rust/apps/web/src/realtime_connection.rs:79-86 | Same generation, same target instance, not suppressed |
| RealtimeConnection.RealtimeConnectionState.InvalidateLease | rust/apps/web/src/realtime_connection.rs:88-90 | Only the generation changes |
| RealtimeConnection.RealtimeConnectionState.MarkLeaseConnected | rust/apps/web/src/realtime_connection.rs:92-99 | Resets backoff and token exactly for a current lease |
| RealtimeConnection.RealtimeConnectionState.RetryTicket | rust/apps/web/src/realtime_connection.rs:101-108 | A ticket exactly for a current lease, claimable at once |
| RealtimeConnection.RealtimeConnectionState.ClaimReconnectTimer | rust/apps/web/src/realtime_connection.rs:110-126 | Succeeds exactly on a claimable ticket, and then replaces the token |
| RealtimeConnection.RealtimeConnectionState.SuppressLease | rust/apps/web/src/realtime_connection.rs:128-137 | Suppresses the target exactly of a current lease |
| RateLimiter.EvictionIsInvisible | rust/apps/server/src/rate_limit.rs:34-70 | Under a clock that does not run backwards a call is admitted if and only if the limiter that never evicts admits it and there is room: only a key without a window is refused, while unexpired windows alone fill the table |
| RateLimiter.FullMeansNoRoom | rust/apps/server/src/rate_limit.rs:47-52 | The table refuses a key exactly when it has no window and the unexpired windows reach the limit |
| RateLimiter.Agreement | rust/apps/server/src/rate_limit.rs:47-52 | The evicting table differs from the other only by windows that have expired |
| RateLimiter.TableIsBounded | rust/apps/server/src/rate_limit.rs:47-58 | The table never holds more than 10,000 keys |
| RateLimiter.FewerThanTwiceTheQuota | rust/apps/server/src/rate_limit.rs:54-70 | One key under one policy, with deadlines saturating or not, before the last millisecond of the clock: at most 2 * max - 1 admissions in any span of one window, and at most max if a window is one millisecond or never ends |
| RateLimiter.AlmostTwiceTheQuotaHappens | rust/apps/server/src/rate_limit.rs:54-70 | For every key and every enabled policy that bound is reached |
| RateLimiter.SaturationDefeatsTheQuota | rust/apps/server/src/rate_limit.rs:54-64 | For every key and every enabled policy any number of requests is admitted in the last millisecond |
| RateLimiter.LastMillisecondAdmitsAll | rust/apps/server/src/rate_limit.rs:47-70 | After every run, a call in the last millisecond is admitted if and only if its policy is enabled |
| RateLimiter.QuotaHoldsUntilTheEnd | rust/apps/server/src/rate_limit.rs:54-70 | The bound holds in all runs up to a time if and only if that time is before the last millisecond |
| RateLimiter.Limiter.Check | rust/apps/server/src/rate_limit.rs:34-70 | The lock-held body computes that answer and that table |
| RtcRecovery.MatchMeansUntouched | rust/apps/web/src/rtc_transition.rs:424-449 | Unless a counter laps 2^64, a token matches its peer if and only if no arm, invalidation, replacement or removal came after it |
| RtcRecovery.ClaimedOnce | rust/apps/web/src/rtc_transition.rs:83-195 | A claimed token is never current again |
| RtcRecovery.OneClaimableToken | rust/apps/web/src/rtc_transition.rs:424-434 | Once a later token exists the earlier one can never be claimed |
| RtcRecovery.LappedTokenReturns | rust/apps/web/src/rtc_transition.rs:424-439 | From every peer some run of 2^64 bumps makes its stale token claimable again, so the work bound is needed |
| RtcRecovery.KeptPeerMatches | rust/apps/web/src/rtc_transition.rs:424-439 | Without any bound: a token matches a kept peer if and only if the bumps since are a multiple of 2^64 |
| RtcRecovery.ReplacedTokenReturns | rust/apps/web/src/rtc_session.rs:428-442 | From every peer some run of 2^64 allocations makes a token of the replaced peer claimable again, so the allocation bound is needed too |
| RtcRecovery.KeptPeer | rust/apps/web/src/rtc_transition.rs:424-439 | While a peer is kept its work generation is the start plus the bumps, modulo 2^64 |
| RtcRecovery.ReplacedAt | rust/apps/web/src/rtc_session.rs:428-442 | After a replacement or removal the old instance is never seen again within one lap |
| RtcRecovery.SamePhases | rust/apps/web/src/rtc_transition.rs:388-422 | The aggregate depends on the peers' phases alone |
| RtcRecovery.AggregateMeans | rust/apps/web/src/rtc_transition.rs:388-422 | The aggregate is the most hopeful phase of any peer, or waiting |
| RtcRecovery.DelaysDouble | rust/apps/web/src/rtc_orchestration.rs:264-266 | Four retries, each after twice the delay of the one before |
| RtcRecovery.Model.AllocatePeer | rust/apps/web/src/rtc_session.rs:428-435 | Replaces this peer by a new instance; other peers only see the counter move |
| RtcRecovery.Model.SetLink | rust/apps/web/src/rtc_transition.rs:351-386 | Changes the link of a streamed active transfer and nothing else |
| RtcRecovery.Model.ClearError | rust/apps/web/src/rtc_transition.rs:297-310 | Clears this peer's error, and the visible one only if it is the same message |
| RtcRecovery.Model.BeginOwnerOffer | rust/apps/web/src/rtc_transition.rs:65-81 | Arms the timeout for the right instance and hands out the token that claims it; the stream waits, the peer's error goes |
| RtcRecovery.Model.AdvanceOwnerTimeout | rust/apps/web/src/rtc_transition.rs:83-117 | Acts exactly on the current token: retry with the next attempt, or failure with a streamed active transfer paused |
| RtcRecovery.Model.ClaimOwnerRetry | rust/apps/web/src/rtc_transition.rs:119-137 | Succeeds exactly on the current token; otherwise changes nothing |
| RtcRecovery.Model.MarkStartFailed | rust/apps/web/src/rtc_transition.rs:139-153 | Fails exactly the right instance and pauses a streamed active transfer |
| RtcRecovery.Model.BeginPassiveDeadline | rust/apps/web/src/rtc_transition.rs:155-162 | Arms the deadline and hands out its token; the peer's error goes |
| RtcRecovery.Model.ClaimDisconnectedDeadline | rust/apps/web/src/rtc_transition.rs:164-177 | Succeeds exactly on the current token, and invalidates it |
| RtcRecovery.Model.ClaimPassiveDeadline | rust/apps/web/src/rtc_transition.rs:179-195 | Fails the peer exactly on the current token |
| RtcRecovery.Model.MarkDataChannelReady | rust/apps/web/src/rtc_transition.rs:197-215 | Invalidates all work, makes peer and aggregate ready, and reports a recovered stream exactly when one was waiting or paused |
| RtcRecovery.Model.ResetPeerWaiting | rust/apps/web/src/rtc_transition.rs:217-226 | Invalidates all work and waits for the peer |
| RtcRecovery.Model.ReduceConnectionState | rust/apps/web/src/rtc_transition.rs:228-287 | Which recovery follows which phase, for owner and receiver; a lost connection makes the stream wait; a failed receiver stays failed; the cached aggregate stays coherent |
| RtcRecovery.Model.RemovePeer | rust/apps/web/src/rtc_session.rs:207-233 | Removes the peer with its transfer and leaves every other slot alone |
| RtcRecovery.Model.OfferAttempt | rust/apps/web/src/rtc_orchestration.rs:79-139 | One started offer that times out leads to the next attempt, or to Failed with the transfer paused when delays run out |
| RtcRecovery.Model.OfferChain | rust/apps/web/src/rtc_orchestration.rs:47-153 | With nothing else happening the chain ends after at most five offers, exactly five if all start, in Failed with any streamed active transfer paused; a refused start ends it there; no transfer changes beyond such a link |
| SupervisorLock.InvHolds | deploy/scripts/deployment_supervisor/security.py:263-337 | In every interleaving every process with a lock descriptor has the description that owns the lock |
| SupervisorLock.OneWorkerPerClaim | deploy/scripts/deployment_supervisor/worker.py:183-214 | In every run each claim launches at most one worker, and at every moment at most one worker has the lock |
| SupervisorLock.ClaimsNeedCleanupBetween | deploy/scripts/deployment_supervisor/worker.py:183-196 | Between two claims of one operation a cleaner has deleted the launch file |
| SupervisorLock.WorkStartsFresh | deploy/scripts/deployment_supervisor/worker.py:172-182 | In every run a worker that begins to work finds no log and no pid file |
| SupervisorLock.WorkerExcludesCleanup | deploy/scripts/deployment_supervisor/monitor.py:163-173 | While a worker has its descriptor nobody can acquire the lock and no cleaner can delete |
| SupervisorLock.NoGap | deploy/scripts/deployment_supervisor/worker.py:170-231 | From the starter's acquisition to the worker's close the same description owns the lock at every moment |
| SupervisorLock.LostForGood | deploy/scripts/deployment_supervisor/security.py:263-300 | A description that has lost the lock never owns it again |
| SupervisorLock.CleanupMeetsOnlyUnlockedWorkers | deploy/scripts/deployment_supervisor/monitor.py:207-220 | In every reachable state, cleanup can come while a worker process lives and does nothing if and only if its adoption failed or it has closed its lock |
| SupervisorLock.UnadoptedWorkerOutlivesCleanup | deploy/scripts/deployment_supervisor/security.py:303-337 | A concrete run: adoption fails, cleanup deletes the operation's files, and the worker then writes its status |
| SupervisorStatus.ParseBackupLog | deploy/scripts/deployment_supervisor/state.py:111-132 | A result exactly when the log holds one outcome line, well formed, and nothing unsafe |
| SupervisorStatus.UnsafeOutcome | deploy/scripts/deployment_supervisor/state.py:123-126 | One unsafe path spoils the log |
| SupervisorStatus.ReparseMeans | deploy/scripts/deployment_supervisor/state.py:213-221 | Re-parsing a reported path gives it back exactly when it has the expected form |
| SupervisorStatus.ValidateWorkerStatus | deploy/scripts/deployment_supervisor/state.py:188-235 | Accepts exactly the statuses bound to this operation, version and digest, with a code in 0..255 and an established backup outcome, which only a failure may lack |
| SupervisorStatus.StatusRoundTrip | deploy/scripts/deployment_supervisor/state.py:165-186 | Operation, version, digest, exit code and backup outcome can be read back from a status |
| SupervisorStatus.NormalizeMeans | deploy/scripts/deployment_supervisor/worker.py:36-42 | A code in range is itself, a signal 128 plus its number, anything else an error |
| SupervisorStatus.Conclude | deploy/scripts/deployment_supervisor/worker.py:74-115 | Zero if and only if the wrapper exited zero and the log held exactly one well-formed outcome; a failing wrapper's own code otherwise; own codes for a busy lock and for anything broken; the outcome whenever the log establishes one |
| SupervisorStatus.RunWorker | deploy/scripts/deployment_supervisor/worker.py:58-142 | Every status the worker writes passes the validator and reports exactly what it met |
| SupervisorStatus.EstablishedPath | deploy/scripts/deployment_supervisor/state.py:120-132 | An established outcome is a path of the expected form or the not-required note |
| SupervisorStatus.Judge | deploy/scripts/deployment_supervisor/monitor.py:67-150 | The exact meaning of every code: zero if and only if the poll shows an accepted status of code zero with the exact launch payload, another turn exactly while the operation is active before the deadline |
| SupervisorStatus.Wait | deploy/scripts/deployment_supervisor/monitor.py:45-150 | Zero if and only if the first poll that decides shows an accepted status of code zero with the exact launch payload; a timeout if none decides |
| SupervisorStatus.ZeroMeansThisWorkerSucceeded | deploy/scripts/deployment_supervisor/monitor.py:67-95 | The status behind a zero was written for the same operation, version and digest by a worker that succeeded |
| Text.SplitOne | deploy/scripts/deployment_supervisor/state.py:120 | A terminated line without breaks is read back as itself |
| Text.SplitTerminated | deploy/scripts/deployment_supervisor/state.py:120 | Terminated lines are read back as themselves, however many |
| Text.FilterConcat | deploy/scripts/deployment_supervisor/state.py:119-130 | The outcome lines of a log are exactly those lines in their order |
| LogTail.InsideStep | deploy/scripts/deployment_supervisor/diagnostics.py:38-45 | The flag's update rule is the declarative notion of being inside a private-key block |
| LogTail.NothingSecretShown | deploy/scripts/deployment_supervisor/diagnostics.py:34-52 | Every reported line is a fixed text or a line outside all blocks that the rules do not call sensitive |
| LogTail.EveryLineHasItsPlace | deploy/scripts/deployment_supervisor/diagnostics.py:34-52 | In the redaction a block shows one fixed line where it begins, a sensitive line another, a harmless line itself, the inside of a block nothing, all in order |
| LogTail.RedactLines | deploy/scripts/deployment_supervisor/diagnostics.py:32-54 | The loop yields exactly the redaction, or the empty-log line |
| LogTail.SelectTail | deploy/scripts/deployment_supervisor/diagnostics.py:56-65 | The longest run of last lines within the limit |
| LogTail.MakeRoom | deploy/scripts/deployment_supervisor/diagnostics.py:67-69 | Drops the earliest lines until the marker fits, and no more |
| LogTail.BoundedTail | deploy/scripts/deployment_supervisor/diagnostics.py:56-72 | Never over the limit; everything if it fits, otherwise the marker and the longest tail that fits after it, nothing if the marker does not fit |
| LogTail.Sanitize | deploy/scripts/deployment_supervisor/diagnostics.py:27-72 | The redaction of the whole log if it fits; otherwise the marker and the longest tail of the redaction that fits after it; nothing if the marker does not fit; an error for a limit that is not positive; never over the limit; no line from inside a block |
| InviteLink.ParsePrint | rust/crates/browser-platform/src/navigation.rs:4-24 | An invitation survives printing and parsing if and only if code and capability are well formed |
| InviteLink.PrintParse | rust/crates/browser-platform/src/navigation.rs:61-64 | Every accepted fragment is exactly the print of its result |
| InviteLink.RandomRoomCode | rust/apps/server/src/services.rs:496-506 | Every generated code is well formed for the parser |
| InviteLink.HexLower | rust/apps/server/src/services.rs:525-533 | Lower-case hex, twice as long, from which the bytes can be read back |
| InviteLink.InvitationRoundTrip | rust/apps/server/src/services.rs:508-519 | Whatever UUID and digest the server draws, the browser reads back the same invitation |
| WebShell.TemplateIsGuarded | rust/apps/server/src/web_shell.rs:121-135 | Three placeholders and the three asset references leave no placeholder elsewhere, overlapping ones included |
| WebShell.ThreeMeansNoOther | rust/apps/server/src/web_shell.rs:121-135 | Beside the three references a count of three says exactly that there is no other placeholder, overlapping ones included |
| WebShell.NoNewId | rust/apps/server/src/web_shell.rs:151 | Stamping a release into guarded placeholders creates no id |
| WebShell.IdSurvives | rust/apps/server/src/web_shell.rs:151 | Stamping keeps a single id single |
| WebShell.NoPlaceholderLeft | rust/apps/server/src/web_shell.rs:151 | No placeholder is left unless the release contains one |
| WebShell.TrimKeeps | rust/apps/server/src/web_shell.rs:142 | Trimming keeps exactly the occurrences of a pattern without white space |
| WebShell.TrimsToNothing | rust/apps/server/src/web_shell.rs:76-78 | Nothing is left of a lobby exactly when it is all white space |
| WebShell.TemplateIsSound | rust/apps/server/src/web_shell.rs:75-140 | What the checks establish about the text before, between and after the markers |
| WebShell.SpliceThenStamp | rust/apps/server/src/web_shell.rs:143-151 | Replacing over the spliced page is replacing over its template parts |
| WebShell.AcceptedPagesAreWellMade | rust/apps/server/src/web_shell.rs:75-155 | Every accepted template yields the stamped template text around the trimmed lobby, exactly one fallback id followed by exactly one island id, and no placeholder unless the release contains one |
| WebShell.AcceptsExactly | rust/apps/server/src/web_shell.rs:75-140 | The checks accept exactly when lobby and template have each id, marker and reference where and as often as intended and no placeholder elsewhere |
| WebShell.ErrorsAreTrue | rust/apps/server/src/web_shell.rs:75-140 | Every error tells the truth about lobby, template or release |
| WebShell.FromTemplate | rust/apps/server/src/web_shell.rs:75-155 | Answers the first failing check; a page comes out if and only if template, lobby and release are acceptable in terms of occurrences, and it is well made |
| WebShell.UniqueMarkerOffset | rust/apps/server/src/web_shell.rs:183-198 | The offset exactly of a marker that occurs once; otherwise the error with its match count |
| WebShell.CheckReferences | rust/apps/server/src/web_shell.rs:127-135 | The first reference not matched exactly once, with its count |
| Substring.ListedOrOverlapped | rust/apps/server/src/web_shell.rs:101-106 | Every occurrence is a non-overlapping match or overlapped by one that begins before it |
| Substring.SoloOnce | rust/apps/server/src/web_shell.rs:85-90 | For a pattern that does not overlap itself a match count of one means exactly one occurrence |
| Substring.SoloCount | rust/apps/server/src/web_shell.rs:85-90 | For a pattern that does not overlap itself a match count of one and a single occurrence are the same |
| Substring.ReplaceConcat | rust/apps/server/src/web_shell.rs:151 | Replacement works separately on the two sides of a seam no occurrence straddles |

## Left out

- Docker, Nginx, systemd, age, rclone and all subprocess calls: only their success, failure or observed release.
- File ownership, mode, symlink and hard-link checks: a file that fails them aborts the step.
- SQLite internals, SHA-256 and HMAC: a database image is one value, `materialize` and the digest are inputs.
- JSON text: records and payloads are field values; only the Base64 of the environment is spelled out.
- A database probe that itself creates WAL or SHM files: verification is taken to change no file.
- ControlPlane.Production.BackUp: stated for no pending record, as at its two call sites, and for time stamps that increase; under a clock set back past ten backups the new one would itself be pruned (`NewestStays`).
- ControlPlane.Production.Up: how long readiness polling lasts is not modelled, because only its outcome matters.
- DatabaseInstall.DataDirectory.RemoveLive: an interrupted removal may leave some of the files, as in the source, which keeps no quarantine there.
- RealtimeSession.Session.ReduceEvent: what RTC synchronisation and snapshot refreshes do in the background is not modelled; their results re-enter as messages.
- Entering a receiver's room from the waiting page starts a new target and is a new `Session`.
- RtcRecovery.Model.OfferChain: browser events and data channels that open during the chain are other transitions; the chain is stated without them.
- The outgoing-recovery phases, RTC configuration errors and text transfers: they would only add easy members.
- SupervisorLock.WorkerExcludesCleanup: the global lock and the payload checks, which only refuse more, are not part of the transition system.
- SupervisorLock.NoGap: what the files contain is not part of the transition system; it is in `SupervisorStatus`.
- SupervisorStatus.Wait: the poll interval and the clock are inputs.
- LogTail.RedactLines: the regular expressions, case folding and UTF-8 are parameters.
- Room rules, storage transactions, the hub, transfer segments, HTTP handlers, archive validation and user interface components.
