/** rust/apps/web/src/realtime_connection.rs and realtime_runtime.rs: which of the many
    callbacks, timers and sockets of a page may still act.  Identity is allocation
    identity: every `Rc::new(())` is a number never handed out before, and a target is
    the number of its allocation. */
module RealtimeConnection {
  import opened Common

  type Id = nat

  datatype Phase = Disconnected | Connecting | Connected | Reconnecting | Superseded

  datatype Lease = Lease(generation: Id, target: Id)

  datatype Ticket = Ticket(generation: Id, retryToken: Id, attempt: nat, target: Id) {
    /** RetryTicket::delay_ms */
    function DelayMs(): nat { 500 * Power2(if attempt < 4 then attempt else 4) }
  }

  function Power2(n: nat): nat { if n == 0 then 1 else 2 * Power2(n - 1) }

  /** The backoff doubles from half a second and stops at eight. */
  lemma DelayIsBounded(t: Ticket, later: Ticket)
    requires t.attempt <= later.attempt
    ensures 500 <= t.DelayMs() <= later.DelayMs() <= 8000
    ensures t.attempt < later.attempt && t.attempt < 4 ==> 2 * t.DelayMs() <= later.DelayMs()
  {
    assert Power2(0) == 1 && Power2(1) == 2 && Power2(2) == 4 && Power2(3) == 8 && Power2(4) == 16;
    var a, b := if t.attempt < 4 then t.attempt else 4, if later.attempt < 4 then later.attempt else 4;
    assert a == 0 || a == 1 || a == 2 || a == 3 || a == 4;
    assert b == 0 || b == 1 || b == 2 || b == 3 || b == 4;
  }

  const U32_MAX: nat := 0xFFFF_FFFF

  /** RealtimeConnectionState together with the allocator. */
  datatype State = State(
    generation: Id, backoff: nat, retryToken: Id, active: Option<Id>, suppressed: Option<Lease>, next: Id)
  {
    predicate TargetIsSuppressed(target: Id) { suppressed.Some? && suppressed.value.target == target }

    predicate LeaseIsCurrent(lease: Lease) {
      generation == lease.generation && active == Some(lease.target) && !TargetIsSuppressed(lease.target)
    }

    predicate TicketIsClaimable(ticket: Ticket, phase: Phase) {
      && phase == Reconnecting && generation == ticket.generation && retryToken == ticket.retryToken
      && backoff == ticket.attempt && active == Some(ticket.target) && !TargetIsSuppressed(ticket.target)
    }

    /** Everything handed out so far is older than the allocator. */
    predicate Valid() { generation < next && retryToken < next }
  }

  /** The calls a page can make. */
  datatype Call =
    | Begin(target: Option<Id>)
    | Invalidate
    | MarkConnected(lease: Lease)
    | Claim(ticket: Ticket, phase: Phase)
    | Suppress(lease: Lease)

  function After(s: State, call: Call): State {
    match call
    case Begin(target) =>
      var s' := s.(generation := s.next, next := s.next + 1);
      if s.active == target then s'
      else s'.(backoff := 0, retryToken := s'.next, next := s'.next + 1, suppressed := None, active := target)
    case Invalidate => s.(generation := s.next, next := s.next + 1)
    case MarkConnected(lease) =>
      if s.LeaseIsCurrent(lease) then s.(backoff := 0, retryToken := s.next, next := s.next + 1) else s
    case Claim(ticket, phase) =>
      if s.TicketIsClaimable(ticket, phase)
      then s.(backoff := if s.backoff < U32_MAX then s.backoff + 1 else s.backoff, retryToken := s.next, next := s.next + 1)
      else s
    case Suppress(lease) => if s.LeaseIsCurrent(lease) then s.(suppressed := Some(lease)) else s
  }

  function Run(s: State, calls: seq<Call>): State
    decreases |calls|
  {
    if calls == [] then s else Run(After(s, calls[0]), calls[1..])
  }

  /** Number of successful claims of a retry token in a run. */
  function Claims(s: State, calls: seq<Call>, token: Id): nat
    decreases |calls|
  {
    if calls == [] then 0
    else
      (if calls[0].Claim? && calls[0].ticket.retryToken == token && s.TicketIsClaimable(calls[0].ticket, calls[0].phase)
       then 1 else 0) + Claims(After(s, calls[0]), calls[1..], token)
  }

  lemma AfterValid(s: State, call: Call)
    requires s.Valid()
    ensures After(s, call).Valid() && s.next <= After(s, call).next
  {
  }

  /** What ends a current lease: a new connection, an invalidation, its suppression; no other
      call does. */
  lemma WhatEndsALease(s: State, call: Call, lease: Lease)
    requires s.Valid() && s.LeaseIsCurrent(lease)
    ensures After(s, call).LeaseIsCurrent(lease) <==>
      !call.Begin? && !call.Invalidate? && !(call.Suppress? && s.LeaseIsCurrent(call.lease))
  {
  }

  /** What renews the retry token: a new target, a connection, a claim. */
  lemma WhatRenewsTheToken(s: State, call: Call)
    requires s.Valid()
    ensures After(s, call).retryToken != s.retryToken <==>
      || (call.Begin? && call.target != s.active)
      || (call.MarkConnected? && s.LeaseIsCurrent(call.lease))
      || (call.Claim? && s.TicketIsClaimable(call.ticket, call.phase))
  {
  }

  /** The call starts the backoff anew: another target, or a connection made. */
  predicate Resets(s: State, call: Call) {
    (call.Begin? && call.target != s.active) || (call.MarkConnected? && s.LeaseIsCurrent(call.lease))
  }

  /** The successful claims since the last reset, on top of the backoff at the start. */
  function Attempts(s: State, calls: seq<Call>): nat
    decreases |calls|
  {
    if calls == [] then s.backoff
    else
      var n := |calls| - 1;
      var earlier, c := Run(s, calls[..n]), calls[n];
      if Resets(earlier, c) then 0
      else Attempts(s, calls[..n]) + if c.Claim? && earlier.TicketIsClaimable(c.ticket, c.phase) then 1 else 0
  }

  lemma {:induction false} RunOneMore(s: State, calls: seq<Call>, call: Call)
    ensures Run(s, calls + [call]) == After(Run(s, calls), call)
    decreases |calls|
  {
    if calls == [] {
      assert ([] + [call])[1..] == [];
    } else {
      assert (calls + [call])[1..] == calls[1..] + [call];
      RunOneMore(After(s, calls[0]), calls[1..], call);
    }
  }

  /** In every run the backoff counts the claims since the last reset, up to the counter's end. */
  lemma {:induction false} BackoffCountsClaims(s: State, calls: seq<Call>)
    requires s.backoff <= U32_MAX
    ensures Run(s, calls).backoff == if Attempts(s, calls) <= U32_MAX then Attempts(s, calls) else U32_MAX
    decreases |calls|
  {
    if calls != [] {
      var n := |calls| - 1;
      BackoffCountsClaims(s, calls[..n]);
      RunOneMore(s, calls[..n], calls[n]);
      assert calls == calls[..n] + [calls[n]];
    }
  }

  /** A lease already handed out can stop being current; it cannot start. */
  lemma LeaseStepDead(s: State, call: Call, lease: Lease)
    requires s.Valid() && lease.generation < s.next && !s.LeaseIsCurrent(lease)
    ensures !After(s, call).LeaseIsCurrent(lease)
  {
  }

  /** A lease that has once stopped being current never becomes current again. */
  lemma {:induction false} DeadLeaseStaysDead(s: State, calls: seq<Call>, lease: Lease)
    requires s.Valid() && lease.generation < s.next && !s.LeaseIsCurrent(lease)
    ensures !Run(s, calls).LeaseIsCurrent(lease)
    decreases |calls|
  {
    if calls != [] {
      AfterValid(s, calls[0]);
      LeaseStepDead(s, calls[0], lease);
      DeadLeaseStaysDead(After(s, calls[0]), calls[1..], lease);
    }
  }

  /** A spent retry token is never claimed again. */
  lemma {:induction false} SpentToken(s: State, calls: seq<Call>, token: Id)
    requires s.Valid() && token < s.next && token != s.retryToken
    ensures Claims(s, calls, token) == 0
    decreases |calls|
  {
    if calls != [] {
      AfterValid(s, calls[0]);
      SpentToken(After(s, calls[0]), calls[1..], token);
    }
  }

  /** All tickets sharing a retry token yield at most one successful claim, in every run
      and whatever tickets are presented. */
  lemma {:induction false} OneClaimPerToken(s: State, calls: seq<Call>, token: Id)
    requires s.Valid() && token < s.next
    ensures Claims(s, calls, token) <= 1
    decreases |calls|
  {
    if token != s.retryToken {
      SpentToken(s, calls, token);
    } else if calls != [] {
      AfterValid(s, calls[0]);
      OneClaimPerToken(After(s, calls[0]), calls[1..], token);
      if calls[0].Claim? && s.TicketIsClaimable(calls[0].ticket, calls[0].phase) {
        SpentToken(After(s, calls[0]), calls[1..], token);
      }
    }
  }

  /** begin has not been called with anything but this target. */
  predicate OnlyTarget(calls: seq<Call>, target: Id) {
    forall i :: 0 <= i < |calls| && calls[i].Begin? ==> calls[i].target == Some(target)
  }

  /** The answer of begin: whether it hands out a lease. */
  predicate Connects(s: State, target: Id) { !After(s, Begin(Some(target))).TargetIsSuppressed(target) }

  /** A suppressed target instance stays suppressed, and cannot connect, until begin has
      seen a different target. */
  lemma {:induction false} SuppressionHolds(s: State, calls: seq<Call>, target: Id)
    requires s.active == Some(target) && s.TargetIsSuppressed(target) && OnlyTarget(calls, target)
    ensures Run(s, calls).active == Some(target) && Run(s, calls).TargetIsSuppressed(target)
    ensures !Connects(Run(s, calls), target)
    decreases |calls|
  {
    if calls != [] {
      assert OnlyTarget(calls[1..], target) by {
        assert forall i :: 0 <= i < |calls[1..]| ==> calls[1..][i] == calls[i + 1];
      }
      SuppressionHolds(After(s, calls[0]), calls[1..], target);
    }
  }

  /** A different target lifts the suppression: the first begin with it connects, and so
      does a later return to the suppressed one. */
  lemma OtherTargetLifts(s: State, target: Id, other: Id)
    requires s.active == Some(target) && s.TargetIsSuppressed(target) && other != target
    ensures Connects(s, other) && Connects(After(s, Begin(Some(other))), target)
  {
  }

  class RealtimeConnectionState {
    var generation: Id
    var backoffAttempt: nat
    var retryToken: Id
    var activeTarget: Option<Id>
    var suppressedForTarget: Option<Lease>
    var nextId: Id

    ghost function View(): State
      reads this
    {
      State(generation, backoffAttempt, retryToken, activeTarget, suppressedForTarget, nextId)
    }

    constructor ()
      ensures View() == State(0, 0, 1, None, None, 2) && View().Valid()
    {
      generation, backoffAttempt, retryToken, activeTarget, suppressedForTarget, nextId := 0, 0, 1, None, None, 2;
    }

    method Allocate() returns (id: Id)
      modifies `nextId
      ensures id == old(nextId) && nextId == id + 1
    {
      id := nextId;
      nextId := nextId + 1;
    }

    method TargetIsSuppressed(target: Id) returns (yes: bool)
      ensures yes == View().TargetIsSuppressed(target)
    {
      yes := suppressedForTarget.Some? && suppressedForTarget.value.target == target;
    }

    method LeaseIsCurrent(lease: Lease) returns (yes: bool)
      ensures yes == View().LeaseIsCurrent(lease)
    {
      var suppressed := TargetIsSuppressed(lease.target);
      yes := generation == lease.generation && activeTarget == Some(lease.target) && !suppressed;
    }

    /** Answers a lease to connect with, or None when disconnected or suppressed. */
    method BeginConnection(target: Option<Id>) returns (lease: Option<Lease>)
      modifies this
      ensures View() == After(old(View()), Begin(target))
      ensures lease.Some? <==> target.Some? && Connects(old(View()), target.value)
      ensures lease.Some? ==> View().LeaseIsCurrent(lease.value) && lease.value.target == target.value
    {
      generation := Allocate();
      if activeTarget != target {
        backoffAttempt := 0;
        retryToken := Allocate();
        suppressedForTarget := None;
      }
      activeTarget := target;
      if target.None? { return None; }
      var suppressed := TargetIsSuppressed(target.value);
      lease := if suppressed then None else Some(Lease(generation, target.value));
    }

    method CurrentLease(target: Id) returns (lease: Option<Lease>)
      ensures lease.Some? ==> View().LeaseIsCurrent(lease.value) && lease.value.target == target
      ensures lease.None? ==> forall l: Lease | l.target == target :: !View().LeaseIsCurrent(l)
    {
      var suppressed := TargetIsSuppressed(target);
      lease := if activeTarget != Some(target) || suppressed then None else Some(Lease(generation, target));
    }

    method InvalidateLease()
      modifies this
      ensures View() == After(old(View()), Invalidate)
    {
      generation := Allocate();
    }

    method MarkLeaseConnected(lease: Lease) returns (ok: bool)
      modifies this
      ensures View() == After(old(View()), MarkConnected(lease)) && ok == old(View()).LeaseIsCurrent(lease)
    {
      ok := LeaseIsCurrent(lease);
      if !ok { return; }
      backoffAttempt := 0;
      retryToken := Allocate();
    }

    method RetryTicket(lease: Lease) returns (ticket: Option<Ticket>)
      ensures ticket.Some? <==> View().LeaseIsCurrent(lease)
      ensures ticket.Some? ==> View().TicketIsClaimable(ticket.value, Reconnecting) && ticket.value.target == lease.target
      ensures ticket.Some? ==> ticket.value.attempt == backoffAttempt
    {
      var current := LeaseIsCurrent(lease);
      ticket := if current then Some(Ticket(lease.generation, retryToken, backoffAttempt, lease.target)) else None;
    }

    method ClaimReconnectTimer(ticket: Ticket, phase: Phase) returns (ok: bool)
      modifies this
      ensures View() == After(old(View()), Claim(ticket, phase)) && ok == old(View()).TicketIsClaimable(ticket, phase)
    {
      var suppressed := TargetIsSuppressed(ticket.target);
      if
        || phase != Reconnecting || generation != ticket.generation || retryToken != ticket.retryToken
        || backoffAttempt != ticket.attempt || activeTarget != Some(ticket.target) || suppressed
      {
        return false;
      }
      if backoffAttempt < U32_MAX { backoffAttempt := backoffAttempt + 1; }
      retryToken := Allocate();
      ok := true;
    }

    method SuppressLease(lease: Lease) returns (ok: bool)
      modifies this
      ensures View() == After(old(View()), Suppress(lease)) && ok == old(View()).LeaseIsCurrent(lease)
    {
      ok := LeaseIsCurrent(lease);
      if ok { suppressedForTarget := Some(lease); }
    }
  }
}
