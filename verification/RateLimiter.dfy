/** rust/apps/server/src/rate_limit.rs: a fixed-window limiter that evicts expired
    windows when its table is full. */
module RateLimiter {
  import opened Common

  const MAX_TRACKED_KEYS: nat := 10_000
  const U64_MAX: nat := 0xFFFF_FFFF_FFFF_FFFF

  datatype Policy = Policy(maxRequests: nat, windowMs: nat)
  datatype Window = Window(count: nat, resetsAt: nat)
  type Table = map<string, Window>

  function SaturatingAdd(a: nat, b: nat): nat { if a + b <= U64_MAX then a + b else U64_MAX }

  /** retain: expired windows go. */
  function Purged(t: Table, now: nat): Table {
    map key | key in t && t[key].resetsAt > now :: t[key]
  }

  /** The table as the lookup finds it. */
  function Roomed(t: Table, key: string, now: nat): Table {
    if |t| >= MAX_TRACKED_KEYS && key !in t then Purged(t, now) else t
  }

  /** The call is turned away because the table is full of live windows. */
  predicate Full(t: Table, key: string, now: nat) {
    key !in t && |t| >= MAX_TRACKED_KEYS && |Purged(t, now)| >= MAX_TRACKED_KEYS
  }

  /** The window of a key that a call at `now` counts against. */
  function WindowAt(t: Table, key: string, policy: Policy, now: nat): Window {
    var renewed := Window(0, SaturatingAdd(now, policy.windowMs));
    if key in t && now < t[key].resetsAt then t[key] else renewed
  }

  predicate Disabled(policy: Policy) { policy.maxRequests == 0 || policy.windowMs == 0 }

  datatype Call = Call(key: string, policy: Policy, now: nat)

  /** The limiter without eviction: every key keeps its window for ever. */
  function ReferenceAnswer(t: Table, c: Call): bool {
    !Disabled(c.policy) && WindowAt(t, c.key, c.policy, c.now).count < c.policy.maxRequests
  }

  function ReferenceTable(t: Table, c: Call): Table {
    if Disabled(c.policy) then t
    else
      var w := WindowAt(t, c.key, c.policy, c.now);
      t[c.key := if w.count < c.policy.maxRequests then w.(count := w.count + 1) else w]
  }

  /** The limiter of the source. */
  function Answer(t: Table, c: Call): bool { !Full(t, c.key, c.now) && ReferenceAnswer(Roomed(t, c.key, c.now), c) }

  function TableAfter(t: Table, c: Call): Table {
    if Disabled(c.policy) then t
    else if Full(t, c.key, c.now) then Purged(t, c.now)
    else ReferenceTable(Roomed(t, c.key, c.now), c)
  }

  /** The evicting table has lost nothing but windows that had expired by `now`. */
  ghost predicate Agrees(t: Table, reference: Table, now: nat) {
    && (forall key <- t :: key in reference && reference[key] == t[key])
    && (forall key <- reference :: key in t || reference[key].resetsAt <= now)
  }

  lemma AgreementStep(t: Table, reference: Table, c: Call, earlier: nat)
    requires Agrees(t, reference, earlier) && earlier <= c.now
    ensures Full(t, c.key, c.now) || Disabled(c.policy) ==> Agrees(TableAfter(t, c), reference, c.now)
    ensures !Full(t, c.key, c.now) ==>
      Agrees(TableAfter(t, c), ReferenceTable(reference, c), c.now) && Answer(t, c) == ReferenceAnswer(reference, c)
  {
    var roomed := Roomed(t, c.key, c.now);
    assert Agrees(roomed, reference, c.now);
    assert WindowAt(roomed, c.key, c.policy, c.now) == WindowAt(reference, c.key, c.policy, c.now);
  }

  function Run(t: Table, calls: seq<Call>): Table
    decreases |calls|
  {
    if calls == [] then t else TableAfter(Run(t, calls[..|calls| - 1]), calls[|calls| - 1])
  }

  /** The reference sees every call that was not turned away for want of room. */
  function RunReference(t: Table, reference: Table, calls: seq<Call>): Table
    decreases |calls|
  {
    if calls == [] then reference
    else
      var n := |calls| - 1;
      var earlier := RunReference(t, reference, calls[..n]);
      if Full(Run(t, calls[..n]), calls[n].key, calls[n].now) then earlier else ReferenceTable(earlier, calls[n])
  }

  ghost predicate Ordered(calls: seq<Call>) {
    forall i, j :: 0 <= i <= j < |calls| ==> calls[i].now <= calls[j].now
  }

  function Latest(calls: seq<Call>): nat { if calls == [] then 0 else calls[|calls| - 1].now }

  /** Under a clock that does not run backwards, the two tables agree after every run from
      an empty table. */
  lemma {:induction false} Agreement(calls: seq<Call>)
    requires Ordered(calls)
    ensures Agrees(Run(map[], calls), RunReference(map[], map[], calls), Latest(calls))
    decreases |calls|
  {
    if calls != [] {
      var n := |calls| - 1;
      Agreement(calls[..n]);
      assert Latest(calls[..n]) <= calls[n].now;
      AgreementStep(Run(map[], calls[..n]), RunReference(map[], map[], calls[..n]), calls[n], Latest(calls[..n]));
    }
  }

  /** The keys whose windows have not expired. */
  function Unexpired(t: Table, now: nat): set<string> { set key | key in t && t[key].resetsAt > now }

  /** The key is tracked, or can be once expired windows are gone. */
  predicate HasRoom(t: Table, c: Call) {
    c.key in t || |t| < MAX_TRACKED_KEYS || |Unexpired(t, c.now)| < MAX_TRACKED_KEYS
  }

  lemma FullMeansNoRoom(t: Table, c: Call)
    ensures Full(t, c.key, c.now) <==> !HasRoom(t, c)
    ensures !HasRoom(t, c) <==> c.key !in t && |Unexpired(t, c.now)| >= MAX_TRACKED_KEYS
  {
    assert Purged(t, c.now).Keys == Unexpired(t, c.now) && |Purged(t, c.now).Keys| == |Purged(t, c.now)|;
    SubsetSize(Unexpired(t, c.now), t.Keys);
  }

  /** Every answer of a run is the answer of the limiter that never evicts, except that a key
      without a window is refused while the unexpired windows alone fill the table. */
  lemma EvictionIsInvisible(calls: seq<Call>, i: nat)
    requires Ordered(calls) && i < |calls|
    ensures
      var t, reference := Run(map[], calls[..i]), RunReference(map[], map[], calls[..i]);
      (&& (Answer(t, calls[i]) <==> ReferenceAnswer(reference, calls[i]) && HasRoom(t, calls[i]))
       && (!HasRoom(t, calls[i]) <==> calls[i].key !in t && |Unexpired(t, calls[i].now)| >= MAX_TRACKED_KEYS))
  {
    Agreement(calls[..i]);
    assert Latest(calls[..i]) <= calls[i].now;
    AgreementStep(Run(map[], calls[..i]), RunReference(map[], map[], calls[..i]), calls[i], Latest(calls[..i]));
    FullMeansNoRoom(Run(map[], calls[..i]), calls[i]);
  }

  lemma PurgedSize(t: Table, now: nat)
    ensures |Purged(t, now)| <= |t|
  {
    assert Purged(t, now).Keys <= t.Keys;
    SubsetSize(Purged(t, now).Keys, t.Keys);
  }

  /** The table never tracks more than its limit. */
  lemma {:induction false} TableIsBounded(calls: seq<Call>)
    ensures |Run(map[], calls)| <= MAX_TRACKED_KEYS
    decreases |calls|
  {
    if calls != [] {
      var n := |calls| - 1;
      TableIsBounded(calls[..n]);
      var t, c := Run(map[], calls[..n]), calls[n];
      PurgedSize(t, c.now);
      var roomed := Roomed(t, c.key, c.now);
      if !Disabled(c.policy) && !Full(t, c.key, c.now) {
        assert c.key in roomed ==> ReferenceTable(roomed, c).Keys == roomed.Keys;
        assert c.key !in roomed ==> ReferenceTable(roomed, c).Keys == roomed.Keys + {c.key};
        assert |roomed.Keys| == |roomed| && |ReferenceTable(roomed, c).Keys| == |ReferenceTable(roomed, c)|;
      }
    }
  }

  // ----- how many requests one key can get through

  /** Admissions of a key in the span [from, from + length). */
  function Admitted(calls: seq<Call>, key: string, from: nat, length: nat): nat
    decreases |calls|
  {
    if calls == [] then 0
    else
      var n := |calls| - 1;
      var c := calls[n];
      Admitted(calls[..n], key, from, length)
        + (if c.key == key && from <= c.now < from + length && Answer(Run(map[], calls[..n]), c) then 1 else 0)
  }

  ghost predicate OnePolicy(calls: seq<Call>, key: string, policy: Policy) {
    forall i :: 0 <= i < |calls| && calls[i].key == key ==> calls[i].policy == policy
  }

  /** This key is not used in the last millisecond the clock can show. */
  ghost predicate QuietAtTheEnd(calls: seq<Call>, key: string) {
    forall i :: 0 <= i < |calls| && calls[i].key == key ==> calls[i].now < U64_MAX
  }

  /** A window of one millisecond fills its span, and one that ends with the clock never
      gives way to another: in these two cases a span sees a single window. */
  predicate SingleWindow(policy: Policy) { policy.windowMs == 1 || policy.windowMs >= U64_MAX }

  /** The most that one key can get through in a span of one window. */
  function Most(policy: Policy): nat {
    if Disabled(policy) then 0
    else if SingleWindow(policy) then policy.maxRequests
    else 2 * policy.maxRequests - 1
  }

  /** When the span is over, as far as the clock can tell. */
  function SpanEnd(from: nat, policy: Policy): nat { SaturatingAdd(from, policy.windowMs) }

  /** Where the count of a span stands.  Either all admissions so far belong to one window,
      and one that opened before the span spent its opening request before it; or a second
      window has opened inside the span and will outlast it. */
  ghost predicate SpanState(t: Table, key: string, policy: Policy, from: nat, n: nat) {
    && (key in t ==> 1 <= t[key].count <= policy.maxRequests)
    && (|| (&& (key !in t ==> n <= policy.maxRequests - 1)
            && (key in t ==> n <= if t[key].resetsAt < SpanEnd(from, policy) then t[key].count - 1 else t[key].count))
        || (&& key in t && t[key].resetsAt >= SpanEnd(from, policy)
            && n <= policy.maxRequests - 1 + t[key].count))
  }

  /** The same where a span sees a single window: the admissions are those of the window that
      ends with the span. */
  ghost predicate SingleState(t: Table, key: string, policy: Policy, from: nat, n: nat) {
    && (key in t ==> t[key].count <= policy.maxRequests && t[key].resetsAt <= SpanEnd(from, policy))
    && (key in t && policy.windowMs >= U64_MAX ==> t[key].resetsAt == U64_MAX)
    && n <= if key in t && t[key].resetsAt == SpanEnd(from, policy) then t[key].count else 0
  }

  lemma {:induction false} NoneBefore(calls: seq<Call>, key: string, from: nat, length: nat)
    requires Ordered(calls) && Latest(calls) < from
    ensures Admitted(calls, key, from, length) == 0
    decreases |calls|
  {
    if calls != [] {
      assert Latest(calls[..|calls| - 1]) <= Latest(calls);
      NoneBefore(calls[..|calls| - 1], key, from, length);
    }
  }

  lemma {:induction false} SpanInvariant(calls: seq<Call>, key: string, policy: Policy, from: nat)
    requires Ordered(calls) && OnePolicy(calls, key, policy)
    requires Latest(calls) < SpanEnd(from, policy) && !Disabled(policy)
    ensures
      var t, n := Run(map[], calls), Admitted(calls, key, from, policy.windowMs);
      SpanState(t, key, policy, from, n) && (SingleWindow(policy) ==> SingleState(t, key, policy, from, n))
    decreases |calls|
  {
    if calls != [] {
      var n := |calls| - 1;
      assert Latest(calls[..n]) <= Latest(calls);
      SpanInvariant(calls[..n], key, policy, from);
      if calls[n].now < from { NoneBefore(calls[..n], key, from, policy.windowMs); }
      var t, m := Run(map[], calls[..n]), Admitted(calls[..n], key, from, policy.windowMs);
      SpanStep(t, key, policy, from, m, calls[n]);
      if SingleWindow(policy) { SingleStep(t, key, policy, from, m, calls[n]); }
    }
  }

  lemma SpanStep(t: Table, key: string, policy: Policy, from: nat, n: nat, c: Call)
    requires SpanState(t, key, policy, from, n) && !Disabled(policy)
    requires c.now < SpanEnd(from, policy) && (c.key == key ==> c.policy == policy)
    requires c.now < from ==> n == 0
    ensures SpanState(TableAfter(t, c), key, policy, from,
      n + (if c.key == key && from <= c.now && Answer(t, c) then 1 else 0))
  {
  }

  lemma SingleStep(t: Table, key: string, policy: Policy, from: nat, n: nat, c: Call)
    requires SingleState(t, key, policy, from, n) && SingleWindow(policy) && !Disabled(policy)
    requires c.now < SpanEnd(from, policy) && (c.key == key ==> c.policy == policy)
    requires c.now < from ==> n == 0
    ensures SingleState(TableAfter(t, c), key, policy, from,
      n + (if c.key == key && from <= c.now && Answer(t, c) then 1 else 0))
  {
  }

  lemma {:induction false} NoneWhenDisabled(calls: seq<Call>, key: string, policy: Policy, from: nat)
    requires OnePolicy(calls, key, policy) && Disabled(policy)
    ensures Admitted(calls, key, from, policy.windowMs) == 0
    decreases |calls|
  {
    if calls != [] { NoneWhenDisabled(calls[..|calls| - 1], key, policy, from); }
  }

  /** One key under one policy gets fewer than twice its quota through in any span of one
      window, wherever the span begins and whether or not deadlines saturate. */
  lemma {:induction false} FewerThanTwiceTheQuota(calls: seq<Call>, key: string, policy: Policy, from: nat)
    requires Ordered(calls) && OnePolicy(calls, key, policy) && QuietAtTheEnd(calls, key)
    ensures Admitted(calls, key, from, policy.windowMs) <= Most(policy)
    decreases |calls|
  {
    if Disabled(policy) {
      NoneWhenDisabled(calls, key, policy, from);
    } else if calls != [] && Latest(calls) >= SpanEnd(from, policy) {
      FewerThanTwiceTheQuota(calls[..|calls| - 1], key, policy, from);
    } else if calls != [] {
      SpanInvariant(calls, key, policy, from);
    }
  }

  // ----- the bound is reached

  function Burst(key: string, policy: Policy, now: nat, n: nat): (calls: seq<Call>)
    ensures |calls| == n && forall i :: 0 <= i < n ==> calls[i] == Call(key, policy, now)
  {
    seq(n, _ => Call(key, policy, now))
  }

  /** The table and the admissions of a key in a span, counted from the first call on. */
  datatype Tally = Tally(table: Table, admitted: nat)

  function Counted(s: Tally, c: Call, key: string, from: nat, length: nat): Tally {
    Tally(TableAfter(s.table, c),
          s.admitted + if c.key == key && from <= c.now < from + length && Answer(s.table, c) then 1 else 0)
  }

  function Count(s: Tally, calls: seq<Call>, key: string, from: nat, length: nat): Tally
    decreases |calls|
  {
    if calls == [] then s else Count(Counted(s, calls[0], key, from, length), calls[1..], key, from, length)
  }

  lemma {:induction false} CountConcat(s: Tally, a: seq<Call>, b: seq<Call>, key: string, from: nat, length: nat)
    ensures Count(s, a + b, key, from, length) == Count(Count(s, a, key, from, length), b, key, from, length)
    decreases |a|
  {
    if a == [] {
      assert a + b == b;
    } else {
      assert (a + b)[1..] == a[1..] + b;
      CountConcat(Counted(s, a[0], key, from, length), a[1..], b, key, from, length);
    }
  }

  lemma {:induction false} CountIsAdmitted(calls: seq<Call>, key: string, from: nat, length: nat)
    ensures Count(Tally(map[], 0), calls, key, from, length) == Tally(Run(map[], calls), Admitted(calls, key, from, length))
    decreases |calls|
  {
    if calls != [] {
      var init, last := calls[..|calls| - 1], calls[|calls| - 1];
      CountIsAdmitted(init, key, from, length);
      assert calls == init + [last];
      CountConcat(Tally(map[], 0), init, [last], key, from, length);
      CountOne(Tally(Run(map[], init), Admitted(init, key, from, length)), last, key, from, length);
    }
  }

  lemma CountOne(s: Tally, c: Call, key: string, from: nat, length: nat)
    ensures Count(s, [c], key, from, length) == Counted(s, c, key, from, length)
  {
    assert [c][1..] == [];
  }

  function Share(from: nat, policy: Policy, now: nat, n: nat): nat { if from <= now < from + policy.windowMs then n else 0 }

  lemma SpendsOne(key: string, policy: Policy, from: nat, w: Window, n: nat, now: nat)
    requires now < w.resetsAt && !Disabled(policy) && w.count < policy.maxRequests
    ensures Counted(Tally(map[key := w], n), Call(key, policy, now), key, from, policy.windowMs)
      == Tally(map[key := w.(count := w.count + 1)], n + Share(from, policy, now, 1))
  {
  }

  /** What is left of a window's quota can be spent at once. */
  lemma {:induction false} BurstIsAdmitted(key: string, policy: Policy, from: nat, w: Window, n: nat, now: nat, more: nat)
    requires now < w.resetsAt && !Disabled(policy) && w.count + more <= policy.maxRequests
    ensures Count(Tally(map[key := w], n), Burst(key, policy, now, more), key, from, policy.windowMs)
      == Tally(map[key := w.(count := w.count + more)], n + Share(from, policy, now, more))
    decreases more
  {
    if more > 0 {
      SpendsOne(key, policy, from, w, n, now);
      BurstIsAdmitted(key, policy, from, w.(count := w.count + 1), n + Share(from, policy, now, 1), now, more - 1);
      assert Burst(key, policy, now, more)[1..] == Burst(key, policy, now, more - 1);
    }
  }

  /** No live window of this key and no other key at all. */
  ghost predicate Expired(t: Table, key: string, now: nat) {
    t == map[] || (t.Keys == {key} && t[key].resetsAt <= now)
  }

  lemma OpensWindow(t: Table, key: string, policy: Policy, from: nat, n: nat, now: nat)
    requires !Disabled(policy) && Expired(t, key, now)
    ensures Counted(Tally(t, n), Call(key, policy, now), key, from, policy.windowMs)
      == Tally(map[key := Window(1, SaturatingAdd(now, policy.windowMs))], n + Share(from, policy, now, 1))
  {
    assert |t.Keys| == |t| <= 1;
  }

  /** A burst that finds no live window opens one and gets up to its quota through. */
  lemma FreshBurst(t: Table, key: string, policy: Policy, from: nat, n: nat, now: nat, more: nat)
    requires !Disabled(policy) && Expired(t, key, now) && now < U64_MAX && 0 < more <= policy.maxRequests
    ensures Count(Tally(t, n), Burst(key, policy, now, more), key, from, policy.windowMs)
      == Tally(map[key := Window(more, SaturatingAdd(now, policy.windowMs))], n + Share(from, policy, now, more))
  {
    OpensWindow(t, key, policy, from, n, now);
    BurstIsAdmitted(key, policy, from, Window(1, SaturatingAdd(now, policy.windowMs)), n + Share(from, policy, now, 1), now, more - 1);
    assert Burst(key, policy, now, more)[1..] == Burst(key, policy, now, more - 1);
  }

  /** Calls of one key under one policy, in order, none after `last`. */
  ghost predicate Tidy(calls: seq<Call>, key: string, policy: Policy, last: nat) {
    Ordered(calls) && forall i :: 0 <= i < |calls| ==> calls[i].key == key && calls[i].policy == policy && calls[i].now <= last
  }

  lemma StaysTidy(calls: seq<Call>, key: string, policy: Policy, last: nat, now: nat, n: nat)
    requires Tidy(calls, key, policy, last) && last <= now
    ensures Tidy(calls + Burst(key, policy, now, n), key, policy, now)
  {
  }

  /** For every key and enabled policy some run gets exactly that many through: the rest of
      one window's quota at its end and the next one's at its start. */
  lemma AlmostTwiceTheQuotaHappens(key: string, policy: Policy) returns (calls: seq<Call>, from: nat)
    requires !Disabled(policy)
    ensures Ordered(calls) && OnePolicy(calls, key, policy) && QuietAtTheEnd(calls, key)
    ensures Admitted(calls, key, from, policy.windowMs) == Most(policy)
  {
    if SingleWindow(policy) {
      from, calls := 0, Burst(key, policy, 0, policy.maxRequests);
      FreshBurst(map[], key, policy, 0, 0, 0, policy.maxRequests);
    } else {
      calls, from := TwoWindows(key, policy), policy.windowMs - 1;
      TwoWindowsCount(key, policy);
    }
    CountIsAdmitted(calls, key, from, policy.windowMs);
  }

  /** The opening request, the rest of the quota in the window's last millisecond, and the
      whole quota of the next window. */
  function TwoWindows(key: string, policy: Policy): (calls: seq<Call>)
    requires !Disabled(policy) && !SingleWindow(policy)
    ensures Tidy(calls, key, policy, policy.windowMs)
  {
    var max, w := policy.maxRequests, policy.windowMs;
    StaysTidy([], key, policy, 0, 0, 1);
    StaysTidy([] + Burst(key, policy, 0, 1), key, policy, 0, w - 1, max - 1);
    StaysTidy([] + Burst(key, policy, 0, 1) + Burst(key, policy, w - 1, max - 1), key, policy, w - 1, w, max);
    [] + Burst(key, policy, 0, 1) + Burst(key, policy, w - 1, max - 1) + Burst(key, policy, w, max)
  }

  lemma FirstWindowCount(key: string, policy: Policy)
    requires !Disabled(policy) && !SingleWindow(policy)
    ensures
      var max, w := policy.maxRequests, policy.windowMs;
      Count(Tally(map[], 0), Burst(key, policy, 0, 1) + Burst(key, policy, w - 1, max - 1), key, w - 1, w)
        == Tally(map[key := Window(max, w)], max - 1)
  {
    var max, w := policy.maxRequests, policy.windowMs;
    CountConcat(Tally(map[], 0), Burst(key, policy, 0, 1), Burst(key, policy, w - 1, max - 1), key, w - 1, w);
    FreshBurst(map[], key, policy, w - 1, 0, 0, 1);
    BurstIsAdmitted(key, policy, w - 1, Window(1, w), 0, w - 1, max - 1);
  }

  lemma TwoWindowsCount(key: string, policy: Policy)
    requires !Disabled(policy) && !SingleWindow(policy)
    ensures Count(Tally(map[], 0), TwoWindows(key, policy), key, policy.windowMs - 1, policy.windowMs).admitted
      == 2 * policy.maxRequests - 1
  {
    var max, w := policy.maxRequests, policy.windowMs;
    var first := Burst(key, policy, 0, 1) + Burst(key, policy, w - 1, max - 1);
    assert [] + Burst(key, policy, 0, 1) == Burst(key, policy, 0, 1);
    FirstWindowCount(key, policy);
    CountConcat(Tally(map[], 0), first, Burst(key, policy, w, max), key, w - 1, w);
    FreshBurst(map[key := Window(max, w)], key, policy, w - 1, max - 1, w, max);
  }

  // ----- the last millisecond of the clock

  lemma {:induction false} DeadlinesFit(calls: seq<Call>)
    ensures forall key <- Run(map[], calls) :: Run(map[], calls)[key].resetsAt <= U64_MAX
    decreases |calls|
  {
    if calls != [] { DeadlinesFit(calls[..|calls| - 1]); }
  }

  /** In the last millisecond every window has expired, so nothing but a disabled policy
      refuses a call, whatever came before. */
  lemma LastMillisecondAdmitsAll(calls: seq<Call>, c: Call)
    requires c.now == U64_MAX
    ensures Answer(Run(map[], calls), c) <==> !Disabled(c.policy)
  {
    DeadlinesFit(calls);
    var t := Run(map[], calls);
    assert Purged(t, U64_MAX) == map[];
  }

  lemma {:induction false} SaturationDefeatsTheQuota(key: string, policy: Policy, n: nat)
    requires !Disabled(policy)
    ensures Admitted(Burst(key, policy, U64_MAX, n), key, U64_MAX, policy.windowMs) == n
  {
    if n > 0 {
      SaturationDefeatsTheQuota(key, policy, n - 1);
      var init, c := Burst(key, policy, U64_MAX, n - 1), Call(key, policy, U64_MAX);
      assert Burst(key, policy, U64_MAX, n) == init + [c];
      LastMillisecondAdmitsAll(init, c);
      assert (init + [c])[..n - 1] == init;
    }
  }

  /** The quota holds in every run in which the clock has shown nothing later than `last`. */
  ghost predicate QuotaHolds(key: string, policy: Policy, last: nat) {
    forall calls, from ::
      Ordered(calls) && OnePolicy(calls, key, policy) && Latest(calls) <= last ==>
        Admitted(calls, key, from, policy.windowMs) <= Most(policy)
  }

  /** The quota of an enabled policy holds exactly until the clock shows its last millisecond. */
  lemma QuotaHoldsUntilTheEnd(key: string, policy: Policy, last: nat)
    requires !Disabled(policy) && last <= U64_MAX
    ensures QuotaHolds(key, policy, last) <==> last < U64_MAX
  {
    if last < U64_MAX {
      forall calls, from | Ordered(calls) && OnePolicy(calls, key, policy) && Latest(calls) <= last
        ensures Admitted(calls, key, from, policy.windowMs) <= Most(policy)
      {
        FewerThanTwiceTheQuota(calls, key, policy, from);
      }
    } else {
      var n := Most(policy) + 1;
      SaturationDefeatsTheQuota(key, policy, n);
      assert OnePolicy(Burst(key, policy, U64_MAX, n), key, policy);
    }
  }

  class Limiter {
    var entries: Table

    constructor ()
      ensures entries == map[]
    {
      entries := map[];
    }

    /** RateLimiter::check */
    method Check(bucket: string, key: string, policy: Policy, now: nat) returns (ok: bool)
      requires now <= U64_MAX && policy.windowMs <= U64_MAX
      modifies this
      ensures entries == TableAfter(old(entries), Call(bucket + ":" + key, policy, now))
      ensures ok == Answer(old(entries), Call(bucket + ":" + key, policy, now))
    {
      if policy.maxRequests == 0 || policy.windowMs == 0 { return false; }
      var entryKey := bucket + ":" + key;
      if |entries| >= MAX_TRACKED_KEYS && entryKey !in entries {
        entries := map k | k in entries && entries[k].resetsAt > now :: entries[k];
        if |entries| >= MAX_TRACKED_KEYS { return false; }
      }
      var resetsAt := SaturatingAdd(now, policy.windowMs);
      if entryKey !in entries { entries := entries[entryKey := Window(0, resetsAt)]; }
      if now >= entries[entryKey].resetsAt { entries := entries[entryKey := Window(0, resetsAt)]; }
      if entries[entryKey].count >= policy.maxRequests { return false; }
      entries := entries[entryKey := entries[entryKey].(count := entries[entryKey].count + 1)];
      ok := true;
    }
  }
}
