/** rust/apps/web/src/rtc_transition.rs, rtc_orchestration.rs and rtc_session.rs: the
    timers that recover a peer connection, and the tokens that decide which of them
    may still act. */
module RtcRecovery {
  import opened Common

  const TWO64: nat := 0x1_0000_0000_0000_0000

  function Wrap(n: nat): nat { n % TWO64 }

  datatype Work =
    | OwnerOfferTimeout(attempt: nat)
    | OwnerRetryDelay(nextAttempt: nat)
    | PassiveDeadline
    | DisconnectedDeadline

  datatype Token = Token(instance: nat, work: nat)

  // ----- one peer's slot, as the tokens see it

  /** The part of PeerRtcState that decides which token is current. */
  datatype Core = Core(instance: nat, work: nat, pending: Option<Work>) {
    function Armed(w: Work): Core { Core(instance, Wrap(work + 1), Some(w)) }
    function Invalidated(): Core { Core(instance, Wrap(work + 1), None) }
    function Taken(): Core { this.(pending := None) }
    predicate Matches(token: Token) { instance == token.instance && work == token.work }
    /** work_is_current */
    predicate IsCurrent(token: Token, expected: Work) { Matches(token) && pending == Some(expected) }
  }

  datatype Slot = Slot(generation: nat, peer: Option<Core>)

  /** What a successful claim does with the work it claimed. */
  datatype Then = Take | Invalidate | Arm(next: Work)

  /** Everything that can happen to a slot.  `OtherPeer` is an allocation for another id. */
  datatype Move =
    | ArmWork(work: Work)
    | InvalidateWork
    | Claim(token: Token, expected: Work, then_: Then)
    | Allocate
    | OtherPeer
    | Remove

  function Settle(c: Core, t: Then): Core {
    match t case Take => c.Taken() case Invalidate => c.Invalidated() case Arm(w) => c.Armed(w)
  }

  predicate Claimed(s: Slot, m: Move) { m.Claim? && s.peer.Some? && s.peer.value.IsCurrent(m.token, m.expected) }

  function Next(s: Slot, m: Move): Slot {
    match m
    case Allocate =>
      var g := Wrap(s.generation + 1);
      Slot(g, Some(Core(g, 0, None)))
    case OtherPeer => s.(generation := Wrap(s.generation + 1))
    case Remove => s.(peer := None)
    case _ =>
      if s.peer.None? then s
      else
        var c := s.peer.value;
        match m
        case ArmWork(w) => s.(peer := Some(c.Armed(w)))
        case InvalidateWork => s.(peer := Some(c.Invalidated()))
        case Claim(_, _, t) => if Claimed(s, m) then s.(peer := Some(Settle(c, t))) else s
        case _ => s
  }

  /** The move advances the work generation of the peer that is there. */
  predicate Bumps(s: Slot, m: Move) {
    s.peer.Some? && (m.ArmWork? || m.InvalidateWork? || (Claimed(s, m) && !m.then_.Take?))
  }

  function Run(s: Slot, moves: seq<Move>): Slot
    decreases |moves|
  {
    if moves == [] then s else Run(Next(s, moves[0]), moves[1..])
  }

  function BumpsIn(s: Slot, moves: seq<Move>): nat
    decreases |moves|
  {
    if moves == [] then 0 else (if Bumps(s, moves[0]) then 1 else 0) + BumpsIn(Next(s, moves[0]), moves[1..])
  }

  function AllocationsIn(moves: seq<Move>): nat
    decreases |moves|
  {
    if moves == [] then 0
    else (if moves[0].Allocate? || moves[0].OtherPeer? then 1 else 0) + AllocationsIn(moves[1..])
  }

  /** The peer of the start is still the peer of the end. */
  predicate Kept(moves: seq<Move>) { forall i :: 0 <= i < |moves| ==> !moves[i].Allocate? && !moves[i].Remove? }

  lemma WrapAdd(a: nat, b: nat)
    ensures Wrap(Wrap(a) + b) == Wrap(a + b)
  {
  }

  lemma WrapDistinct(a: nat, k: nat)
    requires a < TWO64 && 0 < k < TWO64
    ensures Wrap(a + k) != a
  {
  }

  lemma {:induction false} KeptPeer(s: Slot, moves: seq<Move>)
    requires s.peer.Some? && s.peer.value.work < TWO64 && Kept(moves)
    ensures Run(s, moves).peer.Some?
    ensures Run(s, moves).peer.value.instance == s.peer.value.instance
    ensures Run(s, moves).peer.value.work == Wrap(s.peer.value.work + BumpsIn(s, moves))
    decreases |moves|
  {
    if moves != [] {
      var s' := Next(s, moves[0]);
      assert Kept(moves[1..]) by { assert forall i :: 0 <= i < |moves[1..]| ==> moves[1..][i] == moves[i + 1]; }
      KeptPeer(s', moves[1..]);
      var later := BumpsIn(s', moves[1..]);
      if Bumps(s, moves[0]) {
        WrapAdd(s.peer.value.work + 1, later);
        assert s'.peer.value.work == Wrap(s.peer.value.work + 1);
      }
    }
  }

  /** While allocations do not lap the counter, a later instance differs from this one. */
  ghost predicate Ahead(s: Slot, instance: nat, behind: nat) {
    instance < TWO64 && behind < TWO64 && s.generation == Wrap(instance + behind)
  }

  /** The slot holds nobody, or somebody allocated after `instance`. */
  ghost predicate Replaced(s: Slot, instance: nat) { s.peer.None? || s.peer.value.instance != instance }

  lemma {:induction false} ReplacedStays(s: Slot, moves: seq<Move>, instance: nat, behind: nat)
    requires Replaced(s, instance) && Ahead(s, instance, behind) && behind + AllocationsIn(moves) < TWO64
    ensures Replaced(Run(s, moves), instance)
    decreases |moves|
  {
    if moves != [] {
      var s' := Next(s, moves[0]);
      var step := if moves[0].Allocate? || moves[0].OtherPeer? then 1 else 0;
      WrapAdd(instance + behind, 1);
      if step == 1 { WrapDistinct(instance, behind + 1); }
      ReplacedStays(s', moves[1..], instance, behind + step);
    }
  }

  /** Unless the counters lap, a token matches only while nothing has superseded it: no arm,
      no invalidation, no replacement and no removal of its peer. */
  lemma {:induction false} MatchMeansUntouched(s: Slot, moves: seq<Move>, token: Token, behind: nat)
    requires s.peer.Some? && s.peer.value.Matches(token) && token.work < TWO64
    requires Ahead(s, token.instance, behind) && behind + AllocationsIn(moves) < TWO64
    requires BumpsIn(s, moves) < TWO64
    ensures Run(s, moves).peer.Some? && Run(s, moves).peer.value.Matches(token) <==>
            Kept(moves) && BumpsIn(s, moves) == 0
    decreases |moves|
  {
    if Kept(moves) {
      KeptPeer(s, moves);
      if BumpsIn(s, moves) > 0 { WrapDistinct(token.work, BumpsIn(s, moves)); }
    } else {
      var i :| 0 <= i < |moves| && (moves[i].Allocate? || moves[i].Remove?);
      ReplacedAt(s, moves, i, token.instance, behind);
    }
  }

  lemma {:induction false} ReplacedAt(s: Slot, moves: seq<Move>, i: nat, instance: nat, behind: nat)
    requires i < |moves| && (moves[i].Allocate? || moves[i].Remove?)
    requires Ahead(s, instance, behind) && behind + AllocationsIn(moves) < TWO64
    ensures Replaced(Run(s, moves), instance)
    decreases i
  {
    var s' := Next(s, moves[0]);
    var step := if moves[0].Allocate? || moves[0].OtherPeer? then 1 else 0;
    WrapAdd(instance + behind, 1);
    if step == 1 { WrapDistinct(instance, behind + 1); }
    if i == 0 {
      ReplacedStays(s', moves[1..], instance, behind + step);
    } else {
      ReplacedAt(s', moves[1..], i - 1, instance, behind + step);
    }
  }

  /** A token is claimed at most once: after a successful claim nothing makes it current. */
  lemma {:induction false} ClaimedOnce(s: Slot, m: Move, moves: seq<Move>, behind: nat, again: Work)
    requires Claimed(s, m) && m.token.work < TWO64
    requires Ahead(s, m.token.instance, behind) && behind + AllocationsIn(moves) < TWO64
    requires BumpsIn(s, [m] + moves) < TWO64
    ensures var end := Run(Next(s, m), moves); !(end.peer.Some? && end.peer.value.IsCurrent(m.token, again))
  {
    var all := [m] + moves;
    assert all[1..] == moves && Run(s, all) == Run(Next(s, m), moves);
    MatchMeansUntouched(s, all, m.token, behind);
    if Kept(all) && BumpsIn(s, all) == 0 {
      assert Kept(moves) by { assert forall i :: 0 <= i < |moves| ==> moves[i] == all[i + 1]; }
      StaysIdle(Next(s, m), moves);
    }
  }

  /** Work cannot become pending without an arm. */
  lemma {:induction false} StaysIdle(s: Slot, moves: seq<Move>)
    requires s.peer.Some? && s.peer.value.pending.None? && Kept(moves) && BumpsIn(s, moves) == 0
    ensures Run(s, moves).peer.Some? && Run(s, moves).peer.value.pending.None?
    decreases |moves|
  {
    if moves != [] {
      assert Kept(moves[1..]) by { assert forall i :: 0 <= i < |moves[1..]| ==> moves[1..][i] == moves[i + 1]; }
      StaysIdle(Next(s, moves[0]), moves[1..]);
    }
  }

  /** At most one of two tokens handed out one after the other can ever be claimed: once the
      second exists the first matches nothing. */
  lemma {:induction false} OneClaimableToken(s: Slot, work: Work, moves: seq<Move>, behind: nat, expected: Work)
    requires s.peer.Some? && s.peer.value.work < TWO64
    requires Ahead(s, s.peer.value.instance, behind) && behind + AllocationsIn(moves) < TWO64
    requires BumpsIn(s, [ArmWork(work)] + moves) < TWO64
    ensures
      var first := Token(s.peer.value.instance, s.peer.value.work);
      var end := Run(Next(s, ArmWork(work)), moves);
      !(end.peer.Some? && end.peer.value.IsCurrent(first, expected))
  {
    var all := [ArmWork(work)] + moves;
    assert all[1..] == moves && Run(s, all) == Run(Next(s, ArmWork(work)), moves);
    assert BumpsIn(s, all) >= 1;
    MatchMeansUntouched(s, all, Token(s.peer.value.instance, s.peer.value.work), behind);
  }

  // ----- both bounds are needed

  /** Without any bound: a token matches a peer that was kept exactly after whole laps. */
  lemma KeptPeerMatches(s: Slot, moves: seq<Move>, token: Token)
    requires s.peer.Some? && s.peer.value.Matches(token) && token.work < TWO64 && Kept(moves)
    ensures Run(s, moves).peer.Some?
    ensures Run(s, moves).peer.value.Matches(token) <==> BumpsIn(s, moves) % TWO64 == 0
  {
    KeptPeer(s, moves);
    WrapMeets(token.work, BumpsIn(s, moves));
  }

  lemma WrapMeets(a: nat, k: nat)
    requires a < TWO64
    ensures Wrap(a + k) == a <==> k % TWO64 == 0
  {
    var q, r := k / TWO64, k % TWO64;
    assert a + k == q * TWO64 + (a + r);
    assert Wrap(a + k) == Wrap(a + r);
  }

  function Repeated(m: Move, n: nat): (moves: seq<Move>)
    ensures |moves| == n && forall i :: 0 <= i < n ==> moves[i] == m
  {
    seq(n, _ => m)
  }

  lemma {:induction false} RunConcat(s: Slot, a: seq<Move>, b: seq<Move>)
    ensures Run(s, a + b) == Run(Run(s, a), b)
    decreases |a|
  {
    if a == [] {
      assert a + b == b;
    } else {
      assert (a + b)[1..] == a[1..] + b;
      RunConcat(Next(s, a[0]), a[1..], b);
    }
  }

  lemma {:induction false} InvalidationsAdvance(s: Slot, n: nat)
    requires s.peer.Some? && s.peer.value.work < TWO64
    ensures
      var end := Run(s, Repeated(InvalidateWork, n));
      && end.generation == s.generation && end.peer.Some? && end.peer.value.instance == s.peer.value.instance
      && end.peer.value.work == Wrap(s.peer.value.work + n)
    decreases n
  {
    if n > 0 {
      assert Repeated(InvalidateWork, n)[1..] == Repeated(InvalidateWork, n - 1);
      InvalidationsAdvance(Next(s, InvalidateWork), n - 1);
      WrapAdd(s.peer.value.work + 1, n - 1);
    }
  }

  /** A peer armed after n invalidations. */
  function ArmedAfter(n: nat, w: Work): seq<Move> { Repeated(InvalidateWork, n) + [ArmWork(w)] }

  lemma ArmedAfterMeans(s: Slot, n: nat, w: Work)
    requires s.peer.Some? && s.peer.value.work < TWO64
    ensures Run(s, ArmedAfter(n, w)) == s.(peer := Some(Core(s.peer.value.instance, Wrap(s.peer.value.work + n + 1), Some(w))))
  {
    var moves := Repeated(InvalidateWork, n);
    InvalidationsAdvance(s, n);
    RunThen(s, moves, ArmWork(w));
    ArmAdvances(Run(s, moves), s.peer.value.work + n, w);
  }

  lemma ArmAdvances(s: Slot, work: nat, w: Work)
    requires s.peer.Some? && s.peer.value.work == Wrap(work)
    ensures Next(s, ArmWork(w)) == s.(peer := Some(Core(s.peer.value.instance, Wrap(work + 1), Some(w))))
  {
    WrapAdd(work, 1);
  }

  lemma RunThen(s: Slot, moves: seq<Move>, m: Move)
    ensures Run(s, moves + [m]) == Next(Run(s, moves), m)
  {
    RunConcat(s, moves, [m]);
    assert [m][1..] == [];
  }

  /** From every peer there is a run of 2^64 bumps after which its stale token, for any work,
      is claimable again. */
  lemma LappedTokenReturns(s: Slot, w: Work) returns (moves: seq<Move>)
    requires s.peer.Some? && s.peer.value.work < TWO64
    ensures Kept(moves) && |moves| == TWO64
    ensures
      var end := Run(s, moves);
      end.peer.Some? && end.peer.value.IsCurrent(Token(s.peer.value.instance, s.peer.value.work), w)
  {
    moves := ArmedAfter(TWO64 - 1, w);
    ArmedAfterMeans(s, TWO64 - 1, w);
  }

  lemma {:induction false} OthersAdvance(s: Slot, n: nat)
    requires s.generation < TWO64
    ensures Run(s, Repeated(OtherPeer, n)) == s.(generation := Wrap(s.generation + n))
    decreases n
  {
    if n > 0 {
      assert Repeated(OtherPeer, n)[1..] == Repeated(OtherPeer, n - 1);
      OthersAdvance(Next(s, OtherPeer), n - 1);
      WrapAdd(s.generation + 1, n - 1);
    }
  }

  /** Likewise for the instance counter: after 2^64 allocations, the last of them for this
      peer, a token of the replaced peer is claimable again although no work counter has
      lapped. */
  lemma ReplacedTokenReturns(s: Slot, w: Work) returns (moves: seq<Move>)
    requires s.peer.Some? && 0 < s.peer.value.work < TWO64 && s.peer.value.instance == s.generation < TWO64
    ensures AllocationsIn(moves) == TWO64 && !Kept(moves) && |moves| == TWO64 + s.peer.value.work
    ensures
      var end := Run(s, moves);
      end.peer.Some? && end.peer.value.IsCurrent(Token(s.peer.value.instance, s.peer.value.work), w)
  {
    var n, work := TWO64 - 1, s.peer.value.work;
    moves := Repeated(OtherPeer, n) + ([Allocate] + ArmedAfter(work - 1, w));
    assert moves[n] == Allocate;
    AllocationsOfRun(n, ArmedAfter(work - 1, w));
    ReplacedThenArmed(s, n, work - 1, w);
  }

  /** Other allocations, then one for this peer, then invalidations and an arm. */
  lemma ReplacedThenArmed(s: Slot, others: nat, n: nat, w: Work)
    requires s.generation < TWO64 && n + 1 < TWO64
    ensures
      var g := Wrap(s.generation + others + 1);
      Run(s, Repeated(OtherPeer, others) + ([Allocate] + ArmedAfter(n, w))) == Slot(g, Some(Core(g, n + 1, Some(w))))
  {
    OthersAdvance(s, others);
    RunConcat(s, Repeated(OtherPeer, others), [Allocate] + ArmedAfter(n, w));
    AllocatedThenArmed(s.(generation := Wrap(s.generation + others)), n, w);
    WrapAdd(s.generation + others, 1);
  }

  lemma AllocatedThenArmed(s: Slot, n: nat, w: Work)
    requires n + 1 < TWO64
    ensures
      var g := Wrap(s.generation + 1);
      Run(s, [Allocate] + ArmedAfter(n, w)) == Slot(g, Some(Core(g, n + 1, Some(w))))
  {
    var g := Wrap(s.generation + 1);
    RunCons(s, Allocate, ArmedAfter(n, w));
    ArmedAfterMeans(Slot(g, Some(Core(g, 0, None))), n, w);
  }

  lemma RunCons(s: Slot, m: Move, rest: seq<Move>)
    ensures Run(s, [m] + rest) == Run(Next(s, m), rest)
  {
    assert ([m] + rest)[1..] == rest;
  }

  lemma {:induction false} AllocationsOfRun(n: nat, armed: seq<Move>)
    requires forall i :: 0 <= i < |armed| ==> armed[i].ArmWork? || armed[i].InvalidateWork?
    ensures AllocationsIn(Repeated(OtherPeer, n) + ([Allocate] + armed)) == n + 1
  {
    var moves := Repeated(OtherPeer, n) + ([Allocate] + armed);
    if n > 0 {
      AllocationsOfRun(n - 1, armed);
      assert moves[1..] == Repeated(OtherPeer, n - 1) + ([Allocate] + armed);
    } else {
      assert moves == [Allocate] + armed && moves[1..] == armed;
      NoAllocations(armed);
    }
  }

  lemma {:induction false} NoAllocations(moves: seq<Move>)
    requires forall i :: 0 <= i < |moves| ==> moves[i].ArmWork? || moves[i].InvalidateWork?
    ensures AllocationsIn(moves) == 0
    decreases |moves|
  {
    if moves != [] { NoAllocations(moves[1..]); }
  }

  // ----- the model the transitions work on

  datatype Phase = Inactive | WaitingPeer | Connecting | Ready | Disconnected | Failed
  datatype ConnectionPhase = CNew | CConnecting | CConnected | CDisconnected | CFailed | CClosed
  datatype Recovery = Pending | Checking | Complete
  datatype Link = LinkReady | LinkWaiting | LinkPaused
  datatype Place = Elsewhere | OwnerRoom | ReceiverRoom

  /** `Active` keeps what the transitions read; `rest` stands for files, counters and the like. */
  datatype Transfer = Active(streamed: bool, link: Link, storagePaused: bool, rest: string) | Other(rest: string)

  datatype Peer = Peer(phase: Phase, core: Core, recovery: Recovery)

  datatype RtcError = RtcError(peerId: string, message: string)

  /** refresh_aggregate_rtc */
  function Aggregate(peers: map<string, Peer>, place: Place): Phase {
    if peers == map[] then (if place == Elsewhere then Inactive else WaitingPeer)
    else if exists id <- peers :: peers[id].phase == Ready then Ready
    else if exists id <- peers :: peers[id].phase == Connecting then Connecting
    else if exists id <- peers :: peers[id].phase == Disconnected then Disconnected
    else if exists id <- peers :: peers[id].phase == Phase.Failed then Phase.Failed
    else WaitingPeer
  }

  /** The most hopeful phase first. */
  function Rank(phase: Phase): nat {
    match phase case Ready => 4 case Connecting => 3 case Disconnected => 2 case Failed => 1 case _ => 0
  }

  /** The aggregate is the most hopeful phase of any peer; with nothing but waiting peers, or
      without peers in a room, it is waiting. */
  lemma AggregateMeans(peers: map<string, Peer>, place: Place)
    ensures peers == map[] ==> Aggregate(peers, place) == if place == Elsewhere then Inactive else WaitingPeer
    ensures forall id <- peers :: Rank(peers[id].phase) <= Rank(Aggregate(peers, place))
    ensures peers != map[] ==>
      Aggregate(peers, place) == WaitingPeer || exists id <- peers :: peers[id].phase == Aggregate(peers, place)
  {
  }

  predicate Streamed(t: Transfer) { t.Active? && t.streamed }

  /** Nothing about any transfer differs except the link of a streamed active one. */
  ghost predicate OnlyLinks(before: map<string, Transfer>, after: map<string, Transfer>) {
    && before.Keys == after.Keys
    && forall id <- before ::
         after[id] == before[id] || (Streamed(before[id]) && Streamed(after[id]) && after[id] == before[id].(link := after[id].link))
  }

  datatype TimeoutStep = TimeoutIgnored | Retry(token: Token, nextAttempt: nat, delayMs: nat) | TimedOut(paused: bool)

  datatype RecoveryAction = NoAction | RestartOffer | ArmPassive | WaitForReconnect(token: Token)

  const RETRY_DELAYS_MS: seq<nat> := [500, 1_000, 2_000, 4_000]

  function RetryDelay(attempt: nat): Option<nat> {
    if attempt < |RETRY_DELAYS_MS| then Some(RETRY_DELAYS_MS[attempt]) else None
  }

  /** Four retries, each after twice the delay of the one before. */
  lemma DelaysDouble(attempt: nat)
    ensures RetryDelay(attempt).Some? <==> attempt < 4
    ensures RetryDelay(0) == Some(500)
    ensures attempt < 3 ==> RetryDelay(attempt + 1).value == 2 * RetryDelay(attempt).value
  {
    assert attempt < 3 ==> attempt == 0 || attempt == 1 || attempt == 2;
  }

  /** attempt.saturating_add(1) on an eight-bit counter */
  function NextAttempt(attempt: nat): (next: nat)
    ensures attempt < 255 ==> attempt < next <= 255
    ensures attempt == 255 ==> next == 255
  {
    if attempt < 255 then attempt + 1 else 255
  }

  /** The first offer the platform does not start. */
  predicate FirstRefused(starts: seq<OfferStart>, k: nat) {
    k < |starts| && starts[k] != Started && forall i | 0 <= i < k :: starts[i] == Started
  }

  class Model {
    var peers: map<string, Peer>
    var generation: nat
    var aggregate: Phase
    var transfers: map<string, Transfer>
    /** The transfer a receiver's page shows. */
    var shown: Transfer
    var place: Place
    var error: Option<string>
    var rtcError: Option<RtcError>

    /** The cached aggregate is what the peers say. */
    ghost predicate Coherent()
      reads this
    {
      aggregate == Aggregate(peers, place)
    }

    /** The frame of every transition on one peer. */
    twostate predicate Touches(id: string)
      reads this
    {
      && generation == old(generation) && place == old(place)
      && (forall other | other != id :: other in peers <==> other in old(peers))
      && (forall other <- peers | other != id && other in old(peers) :: peers[other] == old(peers)[other])
      && (id in peers <==> id in old(peers))
      && (id in peers ==> peers[id].core.instance == old(peers)[id].core.instance && peers[id].recovery == old(peers)[id].recovery)
      && OnlyLinks(old(transfers), transfers)
      && (shown == old(shown) || (place == ReceiverRoom && id in transfers && shown == transfers[id]))
      && (old(Coherent()) ==> Coherent())
    }

    /** This peer's error is gone, and the visible message with it if it was the same. */
    twostate predicate ErrorCleared(id: string)
      reads this
    {
      if old(rtcError).Some? && old(rtcError).value.peerId == id
      then rtcError.None? && error == if old(error) == Some(old(rtcError).value.message) then None else old(error)
      else rtcError == old(rtcError) && error == old(error)
    }

    twostate predicate ErrorKept()
      reads this
    {
      rtcError == old(rtcError) && error == old(error)
    }

    /** The link of a streamed active transfer of this peer is now this one. */
    ghost predicate Linked(id: string, link: Link)
      reads this
    {
      id in transfers && Streamed(transfers[id]) ==>
        transfers[id].link == link && (place == ReceiverRoom ==> shown == transfers[id])
    }

    ghost function View(id: string): Slot
      reads this
    {
      Slot(generation, if id in peers then Some(peers[id].core) else None)
    }

    /** allocate_rtc_peer_generation */
    method AllocatePeer(id: string) returns (instance: nat)
      modifies `generation, `peers
      ensures View(id) == Next(old(View(id)), Allocate)
      ensures forall other | other != id :: View(other) == Next(old(View(other)), OtherPeer)
      ensures instance == generation && peers == old(peers)[id := Peer(WaitingPeer, Core(instance, 0, None), Pending)]
    {
      generation := Wrap(generation + 1);
      instance := generation;
      peers := peers[id := Peer(WaitingPeer, Core(instance, 0, None), Pending)];
    }

    method Refresh()
      modifies `aggregate
      ensures Coherent()
    {
      aggregate := Aggregate(peers, place);
    }

    /** set_peer_transfer_link_state */
    method SetLink(id: string, link: Link) returns (updated: bool)
      modifies `transfers, `shown
      ensures updated <==> id in old(transfers) && Streamed(old(transfers)[id])
      ensures updated ==> transfers == old(transfers)[id := old(transfers)[id].(link := link)]
      ensures updated ==> shown == if place == ReceiverRoom then transfers[id] else old(shown)
      ensures !updated ==> transfers == old(transfers) && shown == old(shown)
    {
      if id !in transfers || !Streamed(transfers[id]) { return false; }
      transfers := transfers[id := transfers[id].(link := link)];
      if place == ReceiverRoom { shown := transfers[id]; }
      updated := true;
    }

    /** clear_peer_rtc_error */
    method ClearError(id: string)
      modifies `error, `rtcError
      ensures ErrorCleared(id) && (rtcError.Some? ==> rtcError.value.peerId != id)
    {
      if rtcError.None? || rtcError.value.peerId != id { return; }
      if error == Some(rtcError.value.message) { error := None; }
      rtcError := None;
    }

    method SetPeer(id: string, phase: Phase, core: Core)
      requires id in peers
      modifies `peers
      ensures peers == old(peers)[id := Peer(phase, core, old(peers)[id].recovery)]
    {
      peers := peers[id := peers[id].(phase := phase, core := core)];
    }

    /** begin_owner_offer */
    method BeginOwnerOffer(id: string, instance: nat, attempt: nat) returns (token: Option<Token>)
      modifies this
      ensures Touches(id)
      ensures token.Some? <==> id in old(peers) && old(peers)[id].core.instance == instance
      ensures token.Some? ==>
        && View(id) == Next(old(View(id)), ArmWork(OwnerOfferTimeout(attempt)))
        && peers[id].phase == Connecting && peers[id].core.IsCurrent(token.value, OwnerOfferTimeout(attempt))
        && Linked(id, LinkWaiting) && ErrorCleared(id) && Coherent()
      ensures token.None? ==> peers == old(peers) && transfers == old(transfers) && ErrorKept()
    {
      if id !in peers || peers[id].core.instance != instance { return None; }
      SetPeer(id, Connecting, peers[id].core.Armed(OwnerOfferTimeout(attempt)));
      token := Some(Token(instance, peers[id].core.work));
      ClearError(id);
      var _ := SetLink(id, LinkWaiting);
      Refresh();
    }

    /** advance_owner_timeout */
    method AdvanceOwnerTimeout(id: string, token: Token, attempt: nat, delay: Option<nat>) returns (step: TimeoutStep)
      modifies this
      ensures Touches(id)
      ensures View(id) == Next(old(View(id)), Claim(token, OwnerOfferTimeout(attempt),
        if delay.Some? then Arm(OwnerRetryDelay(NextAttempt(attempt))) else Invalidate))
      ensures step.TimeoutIgnored? <==> !Claimed(old(View(id)), Claim(token, OwnerOfferTimeout(attempt), Take))
      ensures step.TimeoutIgnored? ==> peers == old(peers) && transfers == old(transfers) && aggregate == old(aggregate)
      ensures ErrorKept()
      ensures step.TimedOut? ==>
        && delay.None? && id in peers && peers[id].phase == Phase.Failed && Coherent()
        && (step.paused <==> id in transfers && Streamed(transfers[id]))
        && Linked(id, LinkPaused)
      ensures step.Retry? ==> peers[id].phase == old(peers)[id].phase && transfers == old(transfers) && aggregate == old(aggregate)
      ensures step.Retry? ==>
        && delay == Some(step.delayMs) && step.nextAttempt == NextAttempt(attempt)
        && id in peers && peers[id].core.IsCurrent(step.token, OwnerRetryDelay(NextAttempt(attempt)))
    {
      if id !in peers || !peers[id].core.IsCurrent(token, OwnerOfferTimeout(attempt)) { return TimeoutIgnored; }
      if delay.None? {
        SetPeer(id, Phase.Failed, peers[id].core.Invalidated());
        var paused := SetLink(id, LinkPaused);
        Refresh();
        return TimedOut(paused);
      }
      SetPeer(id, peers[id].phase, peers[id].core.Armed(OwnerRetryDelay(NextAttempt(attempt))));
      assert old(Coherent()) ==> Coherent() by { SamePhases(old(peers), peers, place); }
      step := Retry(Token(peers[id].core.instance, peers[id].core.work), NextAttempt(attempt), delay.value);
    }

    /** claim_owner_retry */
    method ClaimOwnerRetry(id: string, token: Token, nextAttempt: nat) returns (ok: bool)
      modifies `peers
      ensures Touches(id)
      ensures ok == Claimed(old(View(id)), Claim(token, OwnerRetryDelay(nextAttempt), Take))
      ensures ok ==> peers[id].phase == old(peers)[id].phase
      ensures View(id) == Next(old(View(id)), Claim(token, OwnerRetryDelay(nextAttempt), Take))
      ensures !ok ==> peers == old(peers)
    {
      if id !in peers || !peers[id].core.IsCurrent(token, OwnerRetryDelay(nextAttempt)) { return false; }
      SetPeer(id, peers[id].phase, peers[id].core.Taken());
      assert old(Coherent()) ==> Coherent() by { SamePhases(old(peers), peers, place); }
      ok := true;
    }

    /** mark_peer_start_failed */
    method MarkStartFailed(id: string, instance: nat) returns (paused: Option<bool>)
      modifies this
      ensures Touches(id)
      ensures paused.Some? <==> id in old(peers) && old(peers)[id].core.instance == instance
      ensures paused.Some? ==>
        && View(id) == Next(old(View(id)), InvalidateWork) && peers[id].phase == Phase.Failed
        && (paused.value <==> id in transfers && Streamed(transfers[id]))
        && Linked(id, LinkPaused) && Coherent()
      ensures paused.None? ==> peers == old(peers) && transfers == old(transfers)
      ensures ErrorKept()
    {
      if id !in peers || peers[id].core.instance != instance { return None; }
      SetPeer(id, Phase.Failed, peers[id].core.Invalidated());
      var updated := SetLink(id, LinkPaused);
      Refresh();
      paused := Some(updated);
    }

    /** begin_passive_deadline */
    method BeginPassiveDeadline(id: string) returns (token: Option<Token>)
      modifies this
      ensures Touches(id) && transfers == old(transfers)
      ensures View(id) == Next(old(View(id)), ArmWork(PassiveDeadline))
      ensures token.Some? <==> id in peers
      ensures token.Some? ==>
        && peers[id].phase == Connecting && peers[id].core.IsCurrent(token.value, PassiveDeadline)
        && ErrorCleared(id) && Coherent()
    {
      if id !in peers { return None; }
      SetPeer(id, Connecting, peers[id].core.Armed(PassiveDeadline));
      token := Some(Token(peers[id].core.instance, peers[id].core.work));
      ClearError(id);
      Refresh();
    }

    /** claim_disconnected_deadline */
    method ClaimDisconnectedDeadline(id: string, token: Token) returns (ok: bool)
      modifies `peers
      ensures Touches(id)
      ensures ok == Claimed(old(View(id)), Claim(token, DisconnectedDeadline, Invalidate))
      ensures ok ==> peers[id].phase == old(peers)[id].phase
      ensures View(id) == Next(old(View(id)), Claim(token, DisconnectedDeadline, Invalidate))
      ensures !ok ==> peers == old(peers)
    {
      if id !in peers || !peers[id].core.IsCurrent(token, DisconnectedDeadline) { return false; }
      SetPeer(id, peers[id].phase, peers[id].core.Invalidated());
      assert old(Coherent()) ==> Coherent() by { SamePhases(old(peers), peers, place); }
      ok := true;
    }

    /** claim_passive_deadline: None is "ignored", otherwise whether a transfer was paused */
    method ClaimPassiveDeadline(id: string, token: Token) returns (paused: Option<bool>)
      modifies this
      ensures Touches(id)
      ensures paused.Some? == Claimed(old(View(id)), Claim(token, PassiveDeadline, Invalidate))
      ensures View(id) == Next(old(View(id)), Claim(token, PassiveDeadline, Invalidate))
      ensures paused.None? ==> peers == old(peers) && transfers == old(transfers)
      ensures paused.Some? ==>
        && id in peers && peers[id].phase == Phase.Failed && Coherent()
        && (paused.value <==> id in transfers && Streamed(transfers[id]))
        && Linked(id, LinkPaused)
      ensures ErrorKept()
    {
      if id !in peers || !peers[id].core.IsCurrent(token, PassiveDeadline) { return None; }
      SetPeer(id, Phase.Failed, peers[id].core.Invalidated());
      var updated := SetLink(id, LinkPaused);
      Refresh();
      paused := Some(updated);
    }

    /** mark_data_channel_ready */
    method MarkDataChannelReady(id: string) returns (recovered: bool)
      modifies this
      ensures Touches(id) && transfers == old(transfers)
      ensures View(id) == Next(old(View(id)), InvalidateWork)
      ensures id in peers ==> peers[id].phase == Ready && aggregate == Ready && ErrorCleared(id)
      ensures recovered <==>
        && id in peers && id in transfers && Streamed(transfers[id])
        && transfers[id].link != LinkReady && !transfers[id].storagePaused
    {
      recovered := id in transfers && Streamed(transfers[id]) && transfers[id].link != LinkReady && !transfers[id].storagePaused;
      if id !in peers { return false; }
      SetPeer(id, Ready, peers[id].core.Invalidated());
      ClearError(id);
      Refresh();
    }

    /** reset_peer_waiting */
    method ResetPeerWaiting(id: string) returns (ok: bool)
      modifies this
      ensures Touches(id) && transfers == old(transfers)
      ensures View(id) == Next(old(View(id)), InvalidateWork)
      ensures ok <==> id in peers
      ensures ok ==> peers[id].phase == WaitingPeer && ErrorCleared(id) && Coherent()
    {
      if id !in peers { return false; }
      SetPeer(id, WaitingPeer, peers[id].core.Invalidated());
      ClearError(id);
      Refresh();
      ok := true;
    }

    /** The connection failed or closed. */
    method LoseConnection(id: string, owner: bool) returns (action: RecoveryAction)
      requires id in peers
      modifies this
      ensures Touches(id)
      ensures action == if owner then RestartOffer else ArmPassive
      ensures View(id) == Next(old(View(id)), InvalidateWork) && peers[id].phase == Disconnected
      ensures Linked(id, LinkWaiting) && ErrorKept() && Coherent()
    {
      SetPeer(id, Disconnected, peers[id].core.Invalidated());
      action := if owner then RestartOffer else ArmPassive;
      var _ := SetLink(id, LinkWaiting);
      Refresh();
    }

    /** The connection is interrupted: wait, unless something is already pending. */
    method InterruptConnection(id: string) returns (action: RecoveryAction)
      requires id in peers
      modifies this
      ensures Touches(id) && transfers == old(transfers) && peers[id].phase == Disconnected && ErrorKept() && Coherent()
      ensures if old(peers)[id].core.pending.None?
        then action.WaitForReconnect? && View(id) == Next(old(View(id)), ArmWork(DisconnectedDeadline))
             && peers[id].core.IsCurrent(action.token, DisconnectedDeadline)
        else action.NoAction? && View(id) == old(View(id))
    {
      var core := peers[id].core;
      if core.pending.None? {
        SetPeer(id, Disconnected, core.Armed(DisconnectedDeadline));
        action := WaitForReconnect(Token(core.instance, peers[id].core.work));
      } else {
        SetPeer(id, Disconnected, core);
        action := NoAction;
      }
      Refresh();
    }

    /** reduce_connection_state */
    method ReduceConnectionState(id: string, owner: bool, phase: ConnectionPhase) returns (action: RecoveryAction)
      modifies this
      ensures Touches(id)
      ensures id in old(peers) && !owner && old(peers)[id].phase == Phase.Failed ==>
        action.NoAction? && peers == old(peers) && transfers == old(transfers)
      ensures action.NoAction? ==> View(id) == old(View(id)) && transfers == old(transfers)
      ensures ErrorKept() && (id in peers && (owner || old(peers)[id].phase != Phase.Failed) ==> Coherent())
      ensures id in peers && (owner || old(peers)[id].phase != Phase.Failed) ==>
        match phase {
          case CFailed | CClosed =>
            && action == (if owner then RestartOffer else ArmPassive)
            && View(id) == Next(old(View(id)), InvalidateWork) && peers[id].phase == Disconnected && Linked(id, LinkWaiting)
          case CDisconnected =>
            && peers[id].phase == Disconnected
            && if old(peers)[id].core.pending.None?
               then action.WaitForReconnect? && View(id) == Next(old(View(id)), ArmWork(DisconnectedDeadline))
                    && peers[id].core.IsCurrent(action.token, DisconnectedDeadline)
               else action.NoAction?
          case _ => action.NoAction? && peers[id].phase == if old(peers)[id].phase == Ready then Ready else Connecting
        }
    {
      if id !in peers || (!owner && peers[id].phase == Phase.Failed) { return NoAction; }
      match phase
      case CFailed | CClosed => action := LoseConnection(id, owner);
      case CDisconnected => action := InterruptConnection(id);
      case _ =>
        SetPeer(id, if peers[id].phase == Ready then Ready else Connecting, peers[id].core);
        action := NoAction;
        Refresh();
    }

    /** remove_rtc_peer: the peer and its transfers go together. */
    method RemovePeer(id: string)
      modifies this
      ensures View(id) == Next(old(View(id)), Remove)
      ensures forall other | other != id :: View(other) == old(View(other))
      ensures transfers == old(transfers) - {id} && Coherent() && ErrorCleared(id)
      ensures peers == old(peers) - {id}
      ensures shown == if place == ReceiverRoom then Other("idle") else old(shown)
    {
      ClearError(id);
      peers := peers - {id};
      transfers := transfers - {id};
      if place == ReceiverRoom { shown := Other("idle"); }
      Refresh();
    }

    /** One offer that started, its timeout, and the claim of the retry it leads to. */
    method OfferAttempt(id: string, attempt: nat) returns (next: Option<nat>)
      requires id in peers
      modifies this
      ensures old(Coherent()) ==> Coherent()
      ensures id in peers && peers[id].core.instance == old(peers)[id].core.instance
      ensures OnlyLinks(old(transfers), transfers)
      ensures next == if RetryDelay(attempt).Some? then Some(NextAttempt(attempt)) else None
      ensures next.None? ==>
        && peers[id].phase == Phase.Failed && peers[id].core.pending.None?
        && (id in transfers && Streamed(transfers[id]) ==> transfers[id].link == LinkPaused)
    {
      var armed := BeginOwnerOffer(id, peers[id].core.instance, attempt);
      ghost var midway := transfers;
      var step := AdvanceOwnerTimeout(id, armed.value, attempt, RetryDelay(attempt));
      LinksCompose(old(transfers), midway, transfers);
      if step.TimedOut? { return None; }
      var claimed := ClaimOwnerRetry(id, step.token, step.nextAttempt);
      next := if claimed then Some(step.nextAttempt) else None;
    }

    /** start_owner_offer_attempt and its timers, with nothing else happening: the platform
        answers each offer, every negotiation times out, every delay elapses. */
    method OfferChain(id: string, starts: seq<OfferStart>) returns (offers: nat, outcome: ChainOutcome)
      requires |starts| > |RETRY_DELAYS_MS|
      modifies this
      ensures (old(Coherent()) ==> Coherent()) && OnlyLinks(old(transfers), transfers)
      ensures offers <= |RETRY_DELAYS_MS| + 1
      ensures id in old(peers) && (forall i | 0 <= i < |starts| :: starts[i] == Started) ==>
        outcome == GaveUp && offers == |RETRY_DELAYS_MS| + 1
      ensures outcome == Idle <==> id !in old(peers) || starts[0] == AlreadyActive
      ensures forall k | 0 <= k <= |RETRY_DELAYS_MS| && FirstRefused(starts, k) ::
        id in old(peers) && starts[0] != AlreadyActive ==> outcome == StartFailed && offers == k
      ensures outcome == GaveUp || outcome == StartFailed ==>
        && id in peers && peers[id].phase == Phase.Failed && peers[id].core.pending.None?
        && (id in transfers && Streamed(transfers[id]) ==> transfers[id].link == LinkPaused)
      ensures outcome == Idle ==> offers == 0 && peers == old(peers) && transfers == old(transfers)
    {
      offers := 0;
      if id !in peers { return 0, Idle; }
      var instance := peers[id].core.instance;
      while true
        invariant old(Coherent()) ==> Coherent()
        invariant id in peers && peers[id].core.instance == instance
        invariant OnlyLinks(old(transfers), transfers)
        invariant offers <= |RETRY_DELAYS_MS|
        invariant (forall i | 0 <= i < offers :: starts[i] == Started) && (offers > 0 ==> starts[0] != AlreadyActive)
        invariant offers == 0 ==> peers == old(peers) && transfers == old(transfers)
        decreases |RETRY_DELAYS_MS| - offers
      {
        if starts[offers] == AlreadyActive && offers == 0 { return offers, Idle; }
        ghost var midway := transfers;
        if starts[offers] != Started {
          var _ := MarkStartFailed(id, instance);
          LinksCompose(old(transfers), midway, transfers);
          return offers, StartFailed;
        }
        var next := OfferAttempt(id, offers);
        LinksCompose(old(transfers), midway, transfers);
        offers := offers + 1;
        if next.None? { return offers, GaveUp; }
      }
    }
  }

  lemma LinksCompose(a: map<string, Transfer>, b: map<string, Transfer>, c: map<string, Transfer>)
    requires OnlyLinks(a, b) && OnlyLinks(b, c)
    ensures OnlyLinks(a, c)
  {
  }

  datatype OfferStart = Started | AlreadyActive | StartError
  datatype ChainOutcome = GaveUp | StartFailed | Idle

  /** The aggregate depends on phases alone. */
  lemma SamePhases(before: map<string, Peer>, after: map<string, Peer>, place: Place)
    requires before.Keys == after.Keys && forall id <- before :: before[id].phase == after[id].phase
    ensures Aggregate(before, place) == Aggregate(after, place)
  {
    assert before == map[] <==> after == map[] by {
      assert before == map[] <==> before.Keys == {};
      assert after == map[] <==> after.Keys == {};
    }
  }
}
