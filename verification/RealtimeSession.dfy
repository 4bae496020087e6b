/** rust/apps/web/src/realtime_event_reducer.rs, realtime_session.rs and
    realtime_target.rs: how a browser keeps its room in step with the server while
    messages are duplicated, reordered, delayed and lost. */
module RealtimeSession {
  import opened Common

  datatype Participant = Participant(
    sessionId: string, displayName: string, receiver: bool, online: bool, peerId: Option<string>)

  datatype JoinRequest = JoinRequest(requestId: string, sessionId: string, displayName: string, expiresAt: nat)

  /** RoomBootstrapResponse */
  datatype Snapshot = Snapshot(
    roomId: string, roomCode: string, revision: nat, expiresAt: nat,
    participants: seq<Participant>, pending: seq<JoinRequest>)

  datatype Screen =
    | Booting
    | Lobby
    | Waiting(requestId: string, revision: nat)
    | Room(owner: bool, snapshot: Snapshot)

  /** A step of the server's log.  `Silent` is a revision no client is told about. */
  datatype Event =
    | JoinRequested(request: JoinRequest)
    | JoinDecided(requestId: string, approved: bool)
    | PeerOnline(sessionId: string, peerId: string)
    | PeerOffline(sessionId: string)
    | Silent

  datatype Effect =
    | MarkTargetRevisionApplied(revision: nat)
    | ResolveWaiting
    | ReturnToLobby
    | SyncRtcPeers
    | RefreshRoomSnapshot
    | RemoveRtcPeer(peerId: string)

  datatype RevisionStep = Ignore | Apply | RefreshSnapshot

  function StepFor(current: nat, incoming: nat): RevisionStep {
    if incoming <= current then Ignore else if current + 1 == incoming then Apply else RefreshSnapshot
  }

  function ScreenRevision(screen: Screen): Option<nat> {
    match screen
    case Waiting(_, revision) => Some(revision)
    case Room(_, snapshot) => Some(snapshot.revision)
    case _ => None
  }

  /** RevisionCursor */
  datatype Cursor = Cursor(last: nat, applied: nat, awaiting: bool) {
    function Observe(revision: nat): Cursor { this.(last := Max(last, revision)) }
    function MarkApplied(revision: nat): Cursor {
      Observe(revision).(applied := Max(applied, revision), awaiting := false)
    }
    function Reconcile(revision: nat): Cursor { Observe(revision).(applied := Max(applied, revision)) }
    function MarkSnapshotPending(revision: nat): Cursor { Observe(revision).(awaiting := true) }
  }

  function Max(a: nat, b: nat): nat { if a < b then b else a }

  // ----- what one event does to a room

  /** The first participant of that session changes; nobody else does. */
  function WithPresence(ps: seq<Participant>, sessionId: string, peerId: Option<string>): seq<Participant> {
    if ps == [] then []
    else if ps[0].sessionId == sessionId then [ps[0].(online := peerId.Some?, peerId := peerId)] + ps[1..]
    else [ps[0]] + WithPresence(ps[1..], sessionId, peerId)
  }

  function PeerOf(ps: seq<Participant>, sessionId: string): Option<string> {
    if ps == [] then None
    else if ps[0].sessionId == sessionId then ps[0].peerId
    else PeerOf(ps[1..], sessionId)
  }

  function WithRequest(pending: seq<JoinRequest>, request: JoinRequest): seq<JoinRequest> {
    if exists i :: 0 <= i < |pending| && pending[i].requestId == request.requestId then pending else pending + [request]
  }

  function WithoutRequest(pending: seq<JoinRequest>, requestId: string): seq<JoinRequest> {
    if pending == [] then []
    else (if pending[0].requestId == requestId then [] else [pending[0]]) + WithoutRequest(pending[1..], requestId)
  }

  /** The meaning of one log entry for a room at the revision before it. */
  function After(s: Snapshot, event: Event): Snapshot {
    var next := s.(revision := s.revision + 1);
    match event
    case JoinRequested(request) => next.(pending := WithRequest(s.pending, request))
    case JoinDecided(id, _) => next.(pending := WithoutRequest(s.pending, id))
    case PeerOnline(session, peer) => next.(participants := WithPresence(s.participants, session, Some(peer)))
    case PeerOffline(session) => next.(participants := WithPresence(s.participants, session, None))
    case Silent => next
  }

  // ----- the same, said without the functions above

  ghost predicate FirstOf(ps: seq<Participant>, sessionId: string, i: int) {
    0 <= i < |ps| && ps[i].sessionId == sessionId && forall j :: 0 <= j < i ==> ps[j].sessionId != sessionId
  }

  /** The first participant of the session has this peer, or none and is offline; all others are
      as before. */
  ghost predicate PresenceSet(before: seq<Participant>, after: seq<Participant>, sessionId: string, peerId: Option<string>) {
    && |after| == |before|
    && forall i :: 0 <= i < |before| ==>
         after[i] == if FirstOf(before, sessionId, i) then before[i].(online := peerId.Some?, peerId := peerId) else before[i]
  }

  /** Everything is kept, and the request is there, added at the end if its id was not. */
  ghost predicate RequestAdded(before: seq<JoinRequest>, after: seq<JoinRequest>, request: JoinRequest) {
    && before <= after && (exists i :: 0 <= i < |after| && after[i].requestId == request.requestId)
    && (after == before <==> exists i :: 0 <= i < |before| && before[i].requestId == request.requestId)
    && (after != before ==> |after| == |before| + 1 && after[|before|] == request)
  }

  /** Exactly the requests of that id are gone. */
  ghost predicate RequestRemoved(before: seq<JoinRequest>, after: seq<JoinRequest>, requestId: string) {
    forall r :: multiset(after)[r] == if r.requestId == requestId then 0 else multiset(before)[r]
  }

  ghost predicate Advances(before: Snapshot, event: Event, after: Snapshot) {
    && after.revision == before.revision + 1 && after.roomId == before.roomId && after.roomCode == before.roomCode
    && after.expiresAt == before.expiresAt
    && match event
       case JoinRequested(request) =>
         after.participants == before.participants && RequestAdded(before.pending, after.pending, request)
       case JoinDecided(id, _) =>
         after.participants == before.participants && RequestRemoved(before.pending, after.pending, id)
       case PeerOnline(session, peer) =>
         after.pending == before.pending && PresenceSet(before.participants, after.participants, session, Some(peer))
       case PeerOffline(session) =>
         after.pending == before.pending && PresenceSet(before.participants, after.participants, session, None)
       case Silent => after.participants == before.participants && after.pending == before.pending
  }

  /** One log entry does to a room what its name says and nothing else. */
  lemma AfterMeans(s: Snapshot, event: Event)
    ensures Advances(s, event, After(s, event))
  {
    match event
    case JoinRequested(request) => WithRequestMeans(s.pending, request);
    case JoinDecided(id, _) => WithoutRequestMeans(s.pending, id);
    case PeerOnline(session, peer) => PresenceIsSet(s.participants, session, Some(peer));
    case PeerOffline(session) => PresenceIsSet(s.participants, session, None);
    case Silent =>
  }

  lemma WithRequestMeans(pending: seq<JoinRequest>, request: JoinRequest)
    ensures RequestAdded(pending, WithRequest(pending, request), request)
  {
    var after := WithRequest(pending, request);
    if after != pending { assert after[|pending|].requestId == request.requestId; }
  }

  lemma {:induction false} WithoutRequestMeans(pending: seq<JoinRequest>, id: string)
    ensures RequestRemoved(pending, WithoutRequest(pending, id), id)
  {
    if pending != [] {
      WithoutRequestMeans(pending[1..], id);
      assert pending == [pending[0]] + pending[1..];
    }
  }

  /** The order of the others is kept: what is left of two parts is left of the whole. */
  lemma {:induction false} WithoutRequestKeepsOrder(a: seq<JoinRequest>, b: seq<JoinRequest>, id: string)
    ensures WithoutRequest(a + b, id) == WithoutRequest(a, id) + WithoutRequest(b, id)
  {
    if a == [] {
      assert a + b == b;
    } else {
      assert (a + b)[1..] == a[1..] + b;
      WithoutRequestKeepsOrder(a[1..], b, id);
    }
  }

  lemma PresenceIsSet(ps: seq<Participant>, sessionId: string, peerId: Option<string>)
    ensures PresenceSet(ps, WithPresence(ps, sessionId, peerId), sessionId, peerId)
  {
    forall i | 0 <= i < |ps| ensures
      var after := WithPresence(ps, sessionId, peerId);
      |after| == |ps| && after[i] == if FirstOf(ps, sessionId, i) then ps[i].(online := peerId.Some?, peerId := peerId) else ps[i]
    {
      PresenceMeans(ps, sessionId, peerId, i);
    }
  }

  /** The peer of the first participant of the session, if there is one. */
  lemma {:induction false} PeerOfMeans(ps: seq<Participant>, sessionId: string, peer: string)
    ensures PeerOf(ps, sessionId) == Some(peer) <==> exists i :: FirstOf(ps, sessionId, i) && ps[i].peerId == Some(peer)
  {
    if ps != [] {
      var rest := ps[1..];
      PeerOfMeans(rest, sessionId, peer);
      if ps[0].sessionId == sessionId {
        assert FirstOf(ps, sessionId, 0);
      } else {
        forall i ensures FirstOf(ps, sessionId, i + 1) <==> FirstOf(rest, sessionId, i) {
          assert forall j :: 0 <= j < |rest| ==> rest[j] == ps[j + 1];
          assert forall j :: 0 < j < |ps| ==> ps[j] == rest[j - 1];
        }
        if i :| FirstOf(ps, sessionId, i) && ps[i].peerId == Some(peer) {
          assert FirstOf(rest, sessionId, i - 1);
        }
        if i :| FirstOf(rest, sessionId, i) && rest[i].peerId == Some(peer) {
          assert FirstOf(ps, sessionId, i + 1);
        }
      }
    }
  }

  /** A snapshot with the log entries after it applied, once each and in order. */
  function Replay(base: Snapshot, log: seq<Event>, upTo: nat): (s: Snapshot)
    requires base.revision <= upTo <= |log|
    ensures s.revision == upTo
    decreases upTo
  {
    if upTo == base.revision then base else After(Replay(base, log, upTo - 1), log[upTo - 1])
  }

  /** What the server has done: its log, entry r at revision r + 1, and every
      authoritative snapshot it has given out. */
  datatype Server = Server(log: seq<Event>, issued: set<Snapshot>) {
    function Revision(): nat { |log| }

    /** The view is some authoritative snapshot plus the later events in order. */
    ghost predicate Explains(view: Snapshot) {
      exists base <- issued :: base.revision <= view.revision <= |log| && view == Replay(base, log, view.revision)
    }

    /** What the server can really have sent by now. */
    predicate Admits(step: Step) {
      match step
      case Grown(_) => true
      case Issued(snapshot) => snapshot.revision <= |log|
      case Attached(_, revision) => revision <= |log|
      case Delivered(_, revision, event) => 0 < revision <= |log| && log[revision - 1] == event && event != Silent
      case Snapshotted(_, snapshot) => snapshot in issued && snapshot.revision <= |log|
      case Submitted(_) => true
      case Decided(_, _, answer) => answer.Some? ==> answer.value in issued && answer.value.revision <= |log|
      case Expired(_, revision) => true
    }

    function Next(step: Step): (newer: Server)
      requires Admits(step)
      ensures newer.Extends(this) && newer.Admits(step)
    {
      match step
      case Grown(event) => this.(log := log + [event])
      case Issued(snapshot) => this.(issued := issued + {snapshot})
      case _ => this
    }

    /** The server after everything in the script that is truthful has happened to it. */
    function Lives(script: seq<Step>): Server
      decreases |script|
    {
      if script == [] then this
      else
        var earlier, last := Lives(script[..|script| - 1]), script[|script| - 1];
        if earlier.Admits(last) then earlier.Next(last) else earlier
    }

    predicate Extends(older: Server) { older.log <= log && older.issued <= issued }
  }

  lemma {:induction false} ReplayStable(base: Snapshot, log: seq<Event>, longer: seq<Event>, upTo: nat)
    requires base.revision <= upTo <= |log| && log <= longer
    ensures Replay(base, log, upTo) == Replay(base, longer, upTo)
    decreases upTo
  {
    if base.revision < upTo { ReplayStable(base, log, longer, upTo - 1); }
  }

  /** A view stays explained while the server moves on. */
  lemma ExplainsStable(older: Server, newer: Server, view: Snapshot)
    requires older.Explains(view) && newer.Extends(older)
    ensures newer.Explains(view)
  {
    var base :| base in older.issued && base.revision <= view.revision <= |older.log|
             && view == Replay(base, older.log, view.revision);
    ReplayStable(base, older.log, newer.log, view.revision);
  }

  /** Applying the next log entry keeps a view explained. */
  lemma ExplainsNext(server: Server, view: Snapshot)
    requires server.Explains(view) && view.revision < |server.log|
    ensures server.Explains(After(view, server.log[view.revision]))
  {
    var base :| base in server.issued && base.revision <= view.revision <= |server.log|
             && view == Replay(base, server.log, view.revision);
    assert Replay(base, server.log, view.revision + 1) == After(view, server.log[view.revision]);
  }

  lemma ExplainsIssued(server: Server, view: Snapshot)
    requires view in server.issued && view.revision <= |server.log|
    ensures server.Explains(view)
  {
    assert view == Replay(view, server.log, view.revision);
  }

  lemma {:induction false} ReplaySplit(base: Snapshot, log: seq<Event>, mid: nat, upTo: nat)
    requires base.revision <= mid <= upTo <= |log|
    ensures Replay(base, log, upTo) == Replay(Replay(base, log, mid), log, upTo)
    decreases upTo
  {
    if mid < upTo { ReplaySplit(base, log, mid, upTo - 1); }
  }

  /** If every snapshot the server gave out follows from the earlier ones by the log, then
      all owners at one revision see one and the same room, whatever reached them. */
  lemma OwnersConverge(server: Server, one: Snapshot, other: Snapshot)
    requires forall a <- server.issued, b <- server.issued ::
      a.revision <= b.revision <= |server.log| ==> b == Replay(a, server.log, b.revision)
    requires server.Explains(one) && server.Explains(other) && one.revision == other.revision
    ensures one == other
  {
    var r := one.revision;
    var a :| a in server.issued && a.revision <= r <= |server.log| && one == Replay(a, server.log, r);
    var b :| b in server.issued && b.revision <= r <= |server.log| && other == Replay(b, server.log, r);
    if a.revision <= b.revision {
      ReplaySplit(a, server.log, b.revision, r);
    } else {
      ReplaySplit(b, server.log, a.revision, r);
    }
  }

  /** Exactly the first participant of the session is touched. */
  lemma {:induction false} PresenceMeans(ps: seq<Participant>, sessionId: string, peerId: Option<string>, i: nat)
    requires i < |ps|
    ensures |WithPresence(ps, sessionId, peerId)| == |ps|
    ensures WithPresence(ps, sessionId, peerId)[i] ==
      if ps[i].sessionId == sessionId && (forall j :: 0 <= j < i ==> ps[j].sessionId != sessionId)
      then ps[i].(online := peerId.Some?, peerId := peerId) else ps[i]
  {
    if ps[0].sessionId == sessionId {
    } else if i == 0 {
      if |ps| > 1 { PresenceMeans(ps[1..], sessionId, peerId, 0); }
    } else {
      PresenceMeans(ps[1..], sessionId, peerId, i - 1);
      assert (forall j :: 0 <= j < i ==> ps[j].sessionId != sessionId) <==>
             (forall j :: 0 <= j < i - 1 ==> ps[1..][j].sessionId != sessionId) by {
        assert forall j :: 0 <= j < i - 1 ==> ps[1..][j] == ps[j + 1];
        assert forall j :: 1 <= j < i ==> ps[j] == ps[1..][j - 1];
      }
    }
  }

  function OnlineReceivers(ps: seq<Participant>): seq<string> {
    if ps == [] then []
    else (if ps[0].receiver && ps[0].online then [ps[0].sessionId] else []) + OnlineReceivers(ps[1..])
  }

  function Without(xs: seq<string>, known: seq<string>): seq<string> {
    if xs == [] then [] else (if xs[0] in known then [] else [xs[0]]) + Without(xs[1..], known)
  }

  lemma {:induction false} WithoutMeans(xs: seq<string>, known: seq<string>, x: string)
    ensures x in Without(xs, known) <==> x in xs && x !in known
  {
    if xs != [] {
      WithoutMeans(xs[1..], known, x);
      assert xs == [xs[0]] + xs[1..];
    }
  }

  lemma {:induction false} OnlineReceiversMeans(ps: seq<Participant>, x: string)
    ensures x in OnlineReceivers(ps) <==> exists i :: 0 <= i < |ps| && ps[i].receiver && ps[i].online && ps[i].sessionId == x
  {
    if ps != [] {
      OnlineReceiversMeans(ps[1..], x);
      if x in OnlineReceivers(ps[1..]) {
        var i :| 0 <= i < |ps[1..]| && ps[1..][i].receiver && ps[1..][i].online && ps[1..][i].sessionId == x;
        assert ps[i + 1] == ps[1..][i];
      } else if i :| 0 <= i < |ps| && ps[i].receiver && ps[i].online && ps[i].sessionId == x {
        assert i > 0 ==> ps[1..][i - 1] == ps[i];
      }
    }
  }

  /** x is an online receiver of these participants. */
  ghost predicate OnlineReceiver(ps: seq<Participant>, x: string) {
    exists i :: 0 <= i < |ps| && ps[i].receiver && ps[i].online && ps[i].sessionId == x
  }

  /** The page after the next event: a room advances, except that a receiver's ignores join
      requests; a waiting page answers to its own request only. */
  function NextScreen(screen: Screen, revision: nat, event: Event): Screen {
    match screen
    case Room(owner, snapshot) =>
      if owner || !event.JoinRequested? then Room(owner, After(snapshot, event)) else screen
    case Waiting(requestId, _) =>
      if event.JoinDecided? && event.requestId == requestId
      then if event.approved then Waiting(requestId, revision) else Lobby
      else screen
    case _ => screen
  }

  /** A snapshot of the server's present revision under a current lease. */
  predicate CatchesUp(step: Step, server: Server) {
    step.Snapshotted? && step.lease && step.snapshot in server.issued && step.snapshot.revision == server.Revision()
  }

  class Session {
    var ownSession: Option<string>
    var screen: Screen
    var decisionRequest: Option<string>
    var entering: seq<string>
    /** The revision cell of the live realtime target, if there is one. */
    var cursor: Option<Cursor>

    /** A live target belongs to a screen with a revision; nothing runs ahead of what is
        applied or of the server; an owner's room is explained by the server's log. */
    ghost predicate Valid(server: Server)
      reads this
    {
      && (cursor.Some? ==>
            && ScreenRevision(screen).Some?
            && cursor.value.applied <= ScreenRevision(screen).value <= server.Revision()
            && cursor.value.applied <= cursor.value.last <= server.Revision())
      && (screen.Room? && screen.owner ==> server.Explains(screen.snapshot))
    }

    /** Nothing a live target knows goes backwards. */
    twostate predicate Forward()
      reads this
    {
      old(cursor).Some? && cursor.Some? ==>
        && ScreenRevision(screen).Some? && old(ScreenRevision(screen)).Some?
        && old(ScreenRevision(screen)).value <= ScreenRevision(screen).value
        && old(cursor).value.applied <= cursor.value.applied
        && old(cursor).value.last <= cursor.value.last
    }

    /** Entering a room or a waiting room from an authoritative answer. */
    constructor (screen: Screen, ownSession: Option<string>, ghost server: Server)
      requires screen.Waiting? || screen.Room?
      requires ScreenRevision(screen).value <= server.Revision()
      requires screen.Room? ==> screen.snapshot in server.issued
      ensures Valid(server) && this.screen == screen && cursor.Some?
    {
      this.screen, this.ownSession, decisionRequest, entering := screen, ownSession, None, [];
      var revision := if screen.Waiting? then screen.revision else screen.snapshot.revision;
      cursor := Some(Cursor(revision, revision, false));
      new;
      if screen.Room? { ExplainsIssued(server, screen.snapshot); }
    }

    /** RealtimeTarget::initial_message: a reconnect announces applied state only. */
    method InitialRevision(ghost server: Server) returns (announced: nat)
      requires Valid(server) && cursor.Some?
      ensures announced == cursor.value.applied <= ScreenRevision(screen).value <= server.Revision()
    {
      announced := cursor.value.applied;
    }

    /** reduce_authoritative_snapshot: None is a refusal, otherwise the receivers that came online. */
    method ReduceSnapshot(next: Snapshot, ghost server: Server) returns (came: Option<seq<string>>)
      requires Valid(server) && next in server.issued && next.revision <= server.Revision()
      modifies `screen, `entering
      ensures Valid(server) && Forward()
      ensures came.None? <==> old(ScreenRevision(screen)).Some? && next.revision < old(ScreenRevision(screen)).value
      ensures came.None? ==> screen == old(screen) && entering == old(entering)
      ensures came.Some? && old(screen).Room? ==> screen == old(screen).(snapshot := next)
      ensures came.Some? && old(screen).Waiting? ==> screen == old(screen).(revision := next.revision)
      ensures came.Some? && !old(screen).Room? && !old(screen).Waiting? ==> screen == old(screen)
      ensures came.Some? && old(screen).Room? && old(screen).owner ==>
        forall x :: x in came.value <==>
          OnlineReceiver(next.participants, x) && !OnlineReceiver(old(screen).snapshot.participants, x)
      ensures came.Some? && !(old(screen).Room? && old(screen).owner) ==> came.value == []
      ensures came.Some? ==> forall x :: x in entering <==> x in old(entering) || x in came.value
    {
      ExplainsIssued(server, next);
      match screen
      case Waiting(_, revision) =>
        if next.revision < revision { return None; }
        screen := screen.(revision := next.revision);
        came := Some([]);
      case Room(owner, snapshot) =>
        if next.revision < snapshot.revision { return None; }
        forall x ensures
          x in Without(OnlineReceivers(next.participants), OnlineReceivers(snapshot.participants)) <==>
            OnlineReceiver(next.participants, x) && !OnlineReceiver(snapshot.participants, x)
        {
          WithoutMeans(OnlineReceivers(next.participants), OnlineReceivers(snapshot.participants), x);
          OnlineReceiversMeans(next.participants, x);
          OnlineReceiversMeans(snapshot.participants, x);
        }
        if snapshot == next { return Some([]); }
        var arrived := if owner then Without(OnlineReceivers(next.participants), OnlineReceivers(snapshot.participants)) else [];
        screen := screen.(snapshot := next);
        for i := 0 to |arrived|
          invariant screen == old(screen).(snapshot := next)
          invariant forall x :: x in entering <==> x in old(entering) || x in arrived[..i]
        {
          assert arrived[..i + 1] == arrived[..i] + [arrived[i]];
          if arrived[i] !in entering { entering := entering + [arrived[i]]; }
        }
        assert arrived[..|arrived|] == arrived;
        came := Some(arrived);
      case _ => came := Some([]);
    }

    /** apply_authoritative_snapshot under a lease that is or is not current. */
    method ApplySnapshot(leaseCurrent: bool, next: Snapshot, ghost server: Server) returns (accepted: bool)
      requires Valid(server) && next in server.issued && next.revision <= server.Revision()
      requires leaseCurrent ==> cursor.Some?
      modifies `screen, `entering, `cursor
      ensures Valid(server) && Forward()
      ensures accepted <==>
        leaseCurrent && next.revision >= old(ScreenRevision(screen)).value && next.revision >= old(cursor).value.last
      ensures accepted ==>
        ScreenRevision(screen) == Some(next.revision) && cursor == Some(Cursor(next.revision, next.revision, false))
      ensures accepted && old(screen).Room? ==> screen == old(screen).(snapshot := next)
      ensures accepted && old(screen).Waiting? ==> screen == old(screen).(revision := next.revision)
      ensures !accepted ==> screen == old(screen) && cursor == old(cursor)
      ensures leaseCurrent && next.revision == server.Revision() ==> accepted
    {
      if !leaseCurrent { return false; }
      var local := ScreenRevision(screen).value;
      if next.revision < local || next.revision < cursor.value.last { return false; }
      var came := ReduceSnapshot(next, server);
      cursor := Some(cursor.value.MarkApplied(next.revision));
      accepted := true;
    }

    /** submit_decision, up to the request: one decision at a time, on a room with a target. */
    method SubmitDecision(requestId: string) returns (asked: bool)
      modifies `decisionRequest
      ensures asked <==> old(decisionRequest).None? && cursor.Some? && screen.Room?
      ensures decisionRequest == if asked then Some(requestId) else old(decisionRequest)
    {
      if decisionRequest.Some? || cursor.None? || !screen.Room? { return false; }
      decisionRequest := Some(requestId);
      asked := true;
    }

    /** submit_decision, from the answer on: while the decision is still the current one of
        this target, the fetched snapshot is applied without the cursor; None is an error. */
    method ApplyDecisionSnapshot(scopeCurrent: bool, requestId: string, answer: Option<Snapshot>, ghost server: Server)
      requires Valid(server)
      requires answer.Some? ==> answer.value in server.issued && answer.value.revision <= server.Revision()
      modifies `screen, `entering, `decisionRequest
      ensures Valid(server) && Forward()
      ensures !(scopeCurrent && old(decisionRequest) == Some(requestId)) ==>
        screen == old(screen) && entering == old(entering) && decisionRequest == old(decisionRequest)
      ensures scopeCurrent && old(decisionRequest) == Some(requestId) ==> decisionRequest.None?
      ensures scopeCurrent && old(decisionRequest) == Some(requestId) && old(screen).Room? ==>
        screen == if answer.Some? && answer.value.revision >= old(screen).snapshot.revision
                  then old(screen).(snapshot := answer.value) else old(screen)
    {
      if !(scopeCurrent && decisionRequest == Some(requestId)) { return; }
      if answer.Some? {
        var _ := ReduceSnapshot(answer.value, server);
      }
      decisionRequest := None;
    }

    /** handle_attachment */
    method HandleAttachment(leaseCurrent: bool, revision: nat, ghost server: Server)
      requires Valid(server) && revision <= server.Revision()
      requires leaseCurrent ==> cursor.Some?
      modifies `cursor
      ensures Valid(server) && Forward()
      ensures leaseCurrent ==> cursor.Some? && (cursor.value.awaiting <==> ScreenRevision(screen).value != revision)
      ensures leaseCurrent ==> cursor.value.applied == ScreenRevision(screen).value
      ensures leaseCurrent ==> cursor.value.last == Max(Max(old(cursor).value.last, ScreenRevision(screen).value), revision)
      ensures !leaseCurrent ==> cursor == old(cursor)
    {
      if !leaseCurrent { return; }
      var local := ScreenRevision(screen).value;
      var c := cursor.value.Reconcile(local);
      cursor := Some(if local == revision then c.MarkApplied(revision) else c.MarkSnapshotPending(revision));
    }

    /** begin_revisioned_event */
    method BeginEvent(revision: nat, ghost server: Server) returns (step: RevisionStep)
      requires Valid(server) && revision <= server.Revision() && cursor.Some?
      modifies `cursor
      ensures Valid(server) && Forward() && cursor.Some?
      ensures step == StepFor(ScreenRevision(screen).value, revision)
      ensures cursor.value.applied == ScreenRevision(screen).value
      ensures cursor.value.last == Max(Max(old(cursor).value.last, ScreenRevision(screen).value), revision)
      ensures cursor.value.awaiting <==> old(cursor).value.awaiting || step == RefreshSnapshot
    {
      var current := ScreenRevision(screen).value;
      step := StepFor(current, revision);
      var c := cursor.value.Reconcile(current);
      cursor := Some(if step == RefreshSnapshot then c.MarkSnapshotPending(revision) else c.Observe(revision));
    }

    /** reduce_revisioned_model_event, called when the event is the next one. */
    method ReduceEvent(revision: nat, event: Event) returns (effects: seq<Effect>)
      requires ScreenRevision(screen).Some? && revision == ScreenRevision(screen).value + 1 && event != Silent
      modifies `screen, `decisionRequest
      ensures screen.Room? <==> old(screen).Room?
      ensures screen.Room? && (old(screen).owner || !event.JoinRequested?) ==>
        && screen == old(screen).(snapshot := After(old(screen).snapshot, event))
        && Advances(old(screen).snapshot, event, screen.snapshot)
      ensures screen.Room? && !old(screen).owner && event.JoinRequested? ==> screen == old(screen)
      ensures old(screen).Waiting? ==>
        screen == if event.JoinDecided? && event.requestId == old(screen).requestId
                  then old(screen).(revision := revision) else old(screen)
      ensures forall i | 0 <= i < |effects| && effects[i].MarkTargetRevisionApplied? ::
        effects[i].revision == revision && ScreenRevision(screen) == Some(revision)
      ensures ReturnToLobby in effects <==>
        old(screen).Waiting? && event.JoinDecided? && event.requestId == old(screen).requestId && !event.approved
      ensures ResolveWaiting in effects <==>
        old(screen).Waiting? && event.JoinDecided? && event.requestId == old(screen).requestId && event.approved
      ensures RefreshRoomSnapshot in effects <==> old(screen).Room? && (event.PeerOnline? || event.PeerOffline?)
      ensures SyncRtcPeers in effects <==> event.PeerOnline?
      ensures forall p :: RemoveRtcPeer(p) in effects <==>
        && old(screen).Room? && event.PeerOffline? && ownSession != Some(event.sessionId)
        && exists i :: FirstOf(old(screen).snapshot.participants, event.sessionId, i)
             && old(screen).snapshot.participants[i].peerId == Some(p)
      ensures decisionRequest ==
        if event.JoinDecided? && old(decisionRequest) == Some(event.requestId) then None else old(decisionRequest)
      ensures ScreenRevision(screen) == Some(revision) ==> effects != [] && effects[0] == MarkTargetRevisionApplied(revision)
    {
      if screen.Room? {
        AfterMeans(screen.snapshot, event);
        if event.PeerOffline? {
          forall p ensures PeerOf(screen.snapshot.participants, event.sessionId) == Some(p) <==>
            exists i :: FirstOf(screen.snapshot.participants, event.sessionId, i) && screen.snapshot.participants[i].peerId == Some(p)
          {
            PeerOfMeans(screen.snapshot.participants, event.sessionId, p);
          }
        }
      }
      match event
      case JoinRequested(request) =>
        if !screen.Room? || !screen.owner { return []; }
        screen := screen.(snapshot := screen.snapshot.(revision := revision, pending := WithRequest(screen.snapshot.pending, request)));
        effects := [MarkTargetRevisionApplied(revision)];
      case JoinDecided(requestId, approved) =>
        if decisionRequest == Some(requestId) { decisionRequest := None; }
        match screen {
          case Waiting(current, _) =>
            if current != requestId { return []; }
            screen := screen.(revision := revision);
            effects := [MarkTargetRevisionApplied(revision), if approved then ResolveWaiting else ReturnToLobby];
          case Room(_, snapshot) =>
            screen := screen.(snapshot := snapshot.(revision := revision, pending := WithoutRequest(snapshot.pending, requestId)));
            effects := [MarkTargetRevisionApplied(revision)];
          case _ => effects := [];
        }
      case PeerOnline(sessionId, peerId) =>
        if !screen.Room? { return [SyncRtcPeers]; }
        screen := screen.(snapshot := screen.snapshot.(
          revision := revision, participants := WithPresence(screen.snapshot.participants, sessionId, Some(peerId))));
        effects := [MarkTargetRevisionApplied(revision), SyncRtcPeers, RefreshRoomSnapshot];
      case PeerOffline(sessionId) =>
        if !screen.Room? { return []; }
        var remote := if ownSession == Some(sessionId) then None else PeerOf(screen.snapshot.participants, sessionId);
        screen := screen.(snapshot := screen.snapshot.(
          revision := revision, participants := WithPresence(screen.snapshot.participants, sessionId, None)));
        effects := [MarkTargetRevisionApplied(revision)]
          + (if remote.Some? then [RemoveRtcPeer(remote.value)] else []) + [RefreshRoomSnapshot];
      case Silent => effects := [];
    }

    /** apply_realtime_effects, as far as the screen and the cursor are concerned. */
    method ApplyEffects(effects: seq<Effect>, ghost server: Server)
      requires Valid(server) && cursor.Some?
      requires forall i | 0 <= i < |effects| && effects[i].MarkTargetRevisionApplied? ::
        effects[i].revision == ScreenRevision(screen).value
      modifies `screen, `cursor
      ensures Valid(server) && Forward()
      ensures if ReturnToLobby in effects then screen == Lobby && cursor.None? else screen == old(screen) && cursor.Some?
      ensures cursor.Some? ==>
        cursor.value == if exists i :: 0 <= i < |effects| && effects[i].MarkTargetRevisionApplied?
                        then old(cursor).value.Reconcile(ScreenRevision(screen).value) else old(cursor).value
    {
      for i := 0 to |effects|
        invariant Valid(server) && cursor.Some? && screen == old(screen) && Forward()
        invariant ReturnToLobby !in effects[..i]
        invariant cursor.value == if exists k :: 0 <= k < i && effects[k].MarkTargetRevisionApplied?
                                  then old(cursor).value.Reconcile(ScreenRevision(screen).value) else old(cursor).value
      {
        match effects[i]
        case MarkTargetRevisionApplied(revision) => cursor := Some(cursor.value.Reconcile(revision));
        case ReturnToLobby =>
          screen, cursor := Lobby, None;
          return;
        case _ =>
      }
    }

    /** handle_revisioned_model_event */
    method HandleEvent(leaseCurrent: bool, revision: nat, event: Event, ghost server: Server)
      requires Valid(server) && 0 < revision <= server.Revision() && server.log[revision - 1] == event != Silent
      requires leaseCurrent ==> cursor.Some?
      modifies `screen, `cursor, `decisionRequest
      ensures Valid(server) && Forward()
      ensures !leaseCurrent ==> screen == old(screen) && cursor == old(cursor)
      ensures leaseCurrent && revision != old(ScreenRevision(screen)).value + 1 ==>
        screen == old(screen) && cursor.Some? && decisionRequest == old(decisionRequest)
      ensures leaseCurrent && revision == old(ScreenRevision(screen)).value + 1 ==>
        && screen == NextScreen(old(screen), revision, event)
        && (old(screen).Room? && screen != old(screen) ==> Advances(old(screen).snapshot, event, screen.snapshot))
      ensures leaseCurrent && revision == old(ScreenRevision(screen)).value + 1 ==>
        decisionRequest == if event.JoinDecided? && old(decisionRequest) == Some(event.requestId) then None else old(decisionRequest)
      ensures leaseCurrent && cursor.Some? ==>
        && cursor.value.applied == ScreenRevision(screen).value
        && cursor.value.last == Max(Max(old(cursor).value.last, old(ScreenRevision(screen)).value), revision)
        && (cursor.value.awaiting <==> old(cursor).value.awaiting || revision > old(ScreenRevision(screen)).value + 1)
      ensures leaseCurrent ==> (cursor.None? <==> screen == Lobby)
    {
      if !leaseCurrent { return; }
      var step := BeginEvent(revision, server);
      if step != Apply { return; }
      ApplyNext(revision, event, server);
    }

    /** The next event: the reducer and its effects. */
    method ApplyNext(revision: nat, event: Event, ghost server: Server)
      requires Valid(server) && cursor.Some? && ScreenRevision(screen).value + 1 == revision <= server.Revision()
      requires server.log[revision - 1] == event != Silent && cursor.value.applied == ScreenRevision(screen).value
      requires cursor.value.last >= revision
      modifies `screen, `cursor, `decisionRequest
      ensures Valid(server) && Forward() && screen == NextScreen(old(screen), revision, event)
      ensures old(screen).Room? && screen != old(screen) ==> Advances(old(screen).snapshot, event, screen.snapshot)
      ensures decisionRequest == if event.JoinDecided? && old(decisionRequest) == Some(event.requestId) then None else old(decisionRequest)
      ensures cursor.None? <==> screen == Lobby
      ensures cursor.Some? ==> cursor.value == old(cursor).value.(applied := ScreenRevision(screen).value)
    {
      if screen.Room? && screen.owner { ExplainsNext(server, screen.snapshot); }
      var effects := ReduceEvent(revision, event);
      ApplyEffects(effects, server);
    }

    /** RoomExpired: gated by the screen's revision only. */
    method HandleExpired(leaseCurrent: bool, revision: nat, ghost server: Server)
      requires Valid(server)
      requires leaseCurrent ==> cursor.Some?
      modifies `screen, `cursor
      ensures Valid(server) && Forward()
      ensures leaseCurrent && revision >= old(ScreenRevision(screen)).value ==> screen == Lobby && cursor.None?
      ensures !leaseCurrent || revision < old(ScreenRevision(screen)).value ==> screen == old(screen) && cursor == old(cursor)
    {
      if leaseCurrent && revision >= ScreenRevision(screen).value {
        screen, cursor := Lobby, None;
      }
    }

    /** One thing happening: the server moves on, or something reaches this browser. */
    method Happen(step: Step, ghost server: Server)
      requires Valid(server) && server.Admits(step)
      requires step.Lease() ==> cursor.Some?
      modifies this
      ensures Valid(server) && Forward() && (old(cursor).None? ==> cursor.None?)
      ensures step.Snapshotted? && step.lease && step.snapshot.revision == server.Revision() ==>
        && ScreenRevision(screen) == Some(server.Revision()) && cursor == Some(Cursor(server.Revision(), server.Revision(), false))
        && (screen.Room? ==> screen.snapshot == step.snapshot)
      ensures step.Delivered? && step.lease && old(screen).Room? && old(screen).owner && step.revision == old(screen).snapshot.revision + 1 ==>
        screen == old(screen).(snapshot := After(old(screen).snapshot, step.event))
      ensures step.Submitted? && old(decisionRequest).None? && cursor.Some? && screen.Room? ==> decisionRequest == Some(step.requestId)
      ensures step.Decided? && step.lease && old(decisionRequest) == Some(step.requestId) ==>
        && decisionRequest.None?
        && (old(screen).Room? && step.answer.Some? && step.answer.value.revision >= old(screen).snapshot.revision ==>
              screen == old(screen).(snapshot := step.answer.value))
      ensures step.Expired? && step.lease && step.revision >= old(ScreenRevision(screen)).value ==> screen == Lobby && cursor.None?
      ensures step.Attached? && step.lease ==> cursor.Some? && (cursor.value.awaiting <==> ScreenRevision(screen).value != step.revision)
    {
      match step
      case Attached(lease, revision) => HandleAttachment(lease, revision, server);
      case Delivered(lease, revision, event) => HandleEvent(lease, revision, event, server);
      case Snapshotted(lease, snapshot) => var _ := ApplySnapshot(lease, snapshot, server);
      case Submitted(requestId) => var _ := SubmitDecision(requestId);
      case Decided(scope, requestId, answer) => ApplyDecisionSnapshot(scope, requestId, answer, server);
      case Expired(lease, revision) => HandleExpired(lease, revision, server);
      case _ =>
    }

    /** Every delivery order: steps arrive in any order and any number of times, each
        truthful about the server of its moment, with leases current or not. */
    method Live(script: seq<Step>, start: Server) returns (server: Server)
      requires Valid(start)
      modifies this
      ensures Valid(server) && server.Extends(start) && server == start.Lives(script)
      ensures Forward()
      ensures script != [] && CatchesUp(script[|script| - 1], server) && cursor.Some? ==>
        ScreenRevision(screen) == Some(server.Revision()) && !cursor.value.awaiting
    {
      server := start;
      for i := 0 to |script|
        invariant Valid(server) && server.Extends(start) && server == start.Lives(script[..i])
        invariant i > 0 && CatchesUp(script[i - 1], server) && cursor.Some? ==>
          ScreenRevision(screen) == Some(server.Revision()) && !cursor.value.awaiting
        invariant Forward() && (old(cursor).None? ==> cursor.None?)
        invariant cursor.Some? ==> old(ScreenRevision(screen)).Some?
      {
        var step := script[i];
        assert script[..i + 1][..i] == script[..i];
        if server.Admits(step) {
          var newer := server.Next(step);
          if screen.Room? && screen.owner { ExplainsStable(server, newer, screen.snapshot); }
          server := newer;
          if step.Lease() && cursor.None? { step := step.(lease := false); }
          Happen(step, server);
        }
      }
      assert script[..|script|] == script;
    }
  }

  /** The world's moves.  `Grown` and `Issued` happen on the server. */
  datatype Step =
    | Grown(event: Event)
    | Issued(snapshot: Snapshot)
    | Attached(lease: bool, revision: nat)
    | Delivered(lease: bool, revision: nat, event: Event)
    | Snapshotted(lease: bool, snapshot: Snapshot)
    | Submitted(requestId: string)
    | Decided(lease: bool, requestId: string, answer: Option<Snapshot>)
    | Expired(lease: bool, revision: nat)
  {
    predicate Lease() { !Grown? && !Issued? && !Submitted? && lease }
  }
}
