/** The account pool (accounts.go): sticky selection, cooldowns and probes of benched accounts. */
module Accounts {
  import opened Base
  import opened Cooldown

  const AUTH_ERROR_COOLDOWN := 120 * SECOND
  const PROBE_INTERVAL := 300 * SECOND

  datatype Acct = Acct(cooldownUntil: nat, nextProbe: nat)

  const READY := Acct(0, 0)

  predicate Available(a: Acct, now: nat) {
    a.cooldownUntil <= now
  }

  predicate ProbeDue(a: Acct, now: nat) {
    a.cooldownUntil > now && a.nextProbe <= now
  }

  function Max(x: nat, y: nat): nat {
    if x > y then x else y
  }

  function Cooled(a: Acct, now: nat, until: nat): Acct {
    Acct(Max(a.cooldownUntil, until), Max(a.nextProbe, now + PROBE_INTERVAL))
  }

  function Probed(a: Acct, now: nat): Acct {
    a.(nextProbe := now + PROBE_INTERVAL)
  }

  datatype Pool = Pool(accounts: seq<Acct>, active: nat)

  predicate ValidPool(p: Pool) {
    p.accounts != [] ==> p.active < |p.accounts|
  }

  /** The i-th place in cyclic order from the active account. */
  function Place(p: Pool, i: nat): (idx: nat)
    requires p.accounts != []
    ensures idx < |p.accounts|
  {
    (p.active + i) % |p.accounts|
  }

  predicate Usable(a: Acct, now: nat, probing: bool) {
    if probing then ProbeDue(a, now) else Available(a, now)
  }

  function Search(p: Pool, now: nat, probing: bool, i: nat): (r: Option<nat>)
    ensures r.Some? ==> r.value < |p.accounts| && Usable(p.accounts[r.value], now, probing)
    decreases |p.accounts| - i
  {
    if i >= |p.accounts| then None
    else if Usable(p.accounts[Place(p, i)], now, probing) then Some(Place(p, i))
    else Search(p, now, probing, i + 1)
  }

  function Pick(p: Pool, now: nat): (r: (Pool, Option<nat>))
    ensures |r.0.accounts| == |p.accounts| && (ValidPool(p) ==> ValidPool(r.0))
    ensures r.1.Some? ==> r.1.value < |p.accounts|
  {
    var ready := Search(p, now, false, 0);
    if ready.Some? then (p.(active := ready.value), ready)
    else
      var due := Search(p, now, true, 0);
      if due.None? then (p, None)
      else
        var idx := due.value;
        (Pool(p.accounts[idx := Probed(p.accounts[idx], now)], idx), due)
  }

  // ----- what pick promises -----

  ghost predicate FirstUsable(p: Pool, now: nat, probing: bool, idx: nat) {
    p.accounts != [] &&
    exists i :: 0 <= i < |p.accounts| && idx == Place(p, i) && Usable(p.accounts[idx], now, probing) &&
      forall j :: 0 <= j < i ==> !Usable(p.accounts[Place(p, j)], now, probing)
  }

  lemma Wraps(x: nat, n: nat)
    requires x < 2 * n
    ensures x % n == if x < n then x else x - n
  {
  }

  lemma PlaceReaches(p: Pool, idx: nat) returns (i: nat)
    requires ValidPool(p) && idx < |p.accounts|
    ensures i < |p.accounts| && Place(p, i) == idx
  {
    i := if idx >= p.active then idx - p.active else |p.accounts| - p.active + idx;
    Wraps(p.active + i, |p.accounts|);
  }

  lemma {:induction false} SearchIsFirst(p: Pool, now: nat, probing: bool, i: nat)
    requires p.accounts != [] && i <= |p.accounts|
    requires forall j :: 0 <= j < i ==> !Usable(p.accounts[Place(p, j)], now, probing)
    ensures match Search(p, now, probing, i)
            case Some(idx) => FirstUsable(p, now, probing, idx)
            case None => forall j :: 0 <= j < |p.accounts| ==> !Usable(p.accounts[Place(p, j)], now, probing)
    decreases |p.accounts| - i
  {
    hide Place, Usable;
    if i < |p.accounts| && !Usable(p.accounts[Place(p, i)], now, probing) {
      SearchIsFirst(p, now, probing, i + 1);
    }
  }

  lemma SearchNone(p: Pool, now: nat, probing: bool)
    requires ValidPool(p)
    ensures Search(p, now, probing, 0).None? <==>
            forall idx :: 0 <= idx < |p.accounts| ==> !Usable(p.accounts[idx], now, probing)
  {
    hide Place, Usable;
    if p.accounts != [] {
      SearchIsFirst(p, now, probing, 0);
      if Search(p, now, probing, 0).None? {
        forall idx | 0 <= idx < |p.accounts| ensures !Usable(p.accounts[idx], now, probing) {
          var i := PlaceReaches(p, idx);
        }
      }
    }
  }

  /** Pick: the first available account in cyclic order, else the first whose probe is due, else none. */
  lemma PickIsFirst(p: Pool, now: nat)
    requires ValidPool(p)
    ensures var (q, choice) := Pick(p, now);
            var anyReady := exists idx :: 0 <= idx < |p.accounts| && Available(p.accounts[idx], now);
            match choice
            case Some(idx) =>
              FirstUsable(p, now, !anyReady, idx) && q.active == idx &&
              q.accounts == (if anyReady then p.accounts else p.accounts[idx := Probed(p.accounts[idx], now)])
            case None =>
              q == p && forall idx :: 0 <= idx < |p.accounts| ==>
                !Available(p.accounts[idx], now) && !ProbeDue(p.accounts[idx], now)
  {
    hide Place, Search, FirstUsable;
    SearchNone(p, now, false);
    SearchNone(p, now, true);
    if p.accounts != [] {
      SearchIsFirst(p, now, false, 0);
      SearchIsFirst(p, now, true, 0);
    }
    assert forall idx :: 0 <= idx < |p.accounts| ==>
      Usable(p.accounts[idx], now, false) == Available(p.accounts[idx], now) &&
      Usable(p.accounts[idx], now, true) == ProbeDue(p.accounts[idx], now);
  }

  // ----- runs -----

  /**
   What happens to a pool, each at a time `now`. Picks and cooldowns carry a stamp of their own,
   read before the lock is taken: at most `lag` ago when it is used, except that a failed refresh
   is stamped with the time of the pick before it, which may be long past; but then it benches
   for no longer than probeInterval from its stamp, the time between two readings of the clock
   included.
   */
  datatype Event =
    | PickEvent(now: nat, stamp: nat)
    | CoolEvent(now: nat, idx: nat, stamp: nat, until: nat)
    | ClearEvent(now: nat, idx: nat)

  datatype Probe = Probe(idx: nat, time: nat)

  /** `probes` and `touched` record the run: when accounts were probed, and last cooled or probed. */
  datatype Run = Run(pool: Pool, clock: nat, probes: seq<Probe>, touched: seq<Option<nat>>)

  predicate Legal(lag: nat, r: Run, e: Event) {
    r.clock <= e.now &&
    match e
    case PickEvent(now, stamp) => stamp <= now <= stamp + lag
    case CoolEvent(now, idx, stamp, until) =>
      idx < |r.pool.accounts| && stamp <= now && (now <= stamp + lag || until <= stamp + PROBE_INTERVAL)
    case ClearEvent(_, idx) => idx < |r.pool.accounts|
  }

  function Touch(t: Option<nat>, time: nat): Option<nat> {
    Some(if t.Some? then Max(t.value, time) else time)
  }

  function Next(lag: nat, r: Run, e: Event): Run
    requires Legal(lag, r, e) && |r.touched| == |r.pool.accounts|
  {
    var accounts := r.pool.accounts;
    match e
    case PickEvent(now, stamp) =>
      var (pool, choice) := Pick(r.pool, stamp);
      if choice.Some? && ProbeDue(accounts[choice.value], stamp)
      then Run(pool, now, r.probes + [Probe(choice.value, now)],
               r.touched[choice.value := Touch(r.touched[choice.value], stamp)])
      else Run(pool, now, r.probes, r.touched)
    case CoolEvent(now, idx, stamp, until) =>
      Run(r.pool.(accounts := accounts[idx := Cooled(accounts[idx], stamp, until)]), now, r.probes,
          r.touched[idx := Touch(r.touched[idx], stamp)])
    case ClearEvent(now, idx) =>
      Run(r.pool.(accounts := accounts[idx := READY]), now, r.probes, r.touched)
  }

  /** A probe at `time` holds back the next one: by nextProbe, or because no bench can last that long. */
  predicate HeldBack(lag: nat, a: Acct, time: nat) {
    a.nextProbe + lag >= time + PROBE_INTERVAL || a.cooldownUntil <= a.nextProbe
  }

  predicate InTouch(a: Acct, touched: Option<nat>) {
    if touched.None? then a == READY else a.nextProbe <= touched.value + PROBE_INTERVAL
  }

  /** Probes of one account are at least gap apart. */
  ghost predicate Spaced(probes: seq<Probe>, gap: int) {
    forall i, j :: 0 <= i < j < |probes| && probes[i].idx == probes[j].idx ==> probes[i].time + gap <= probes[j].time
  }

  ghost predicate Inv(lag: nat, r: Run) {
    var accounts := r.pool.accounts;
    && ValidPool(r.pool) && |r.touched| == |accounts|
    && Spaced(r.probes, PROBE_INTERVAL - lag)
    && (forall i :: 0 <= i < |r.probes| ==>
          r.probes[i].idx < |accounts| && r.probes[i].time <= r.clock &&
          HeldBack(lag, accounts[r.probes[i].idx], r.probes[i].time))
    && (forall k :: 0 <= k < |accounts| ==> InTouch(accounts[k], r.touched[k]))
  }

  /** How one account's books move under a cooldown. */
  lemma CoolHoldsBack(lag: nat, a: Acct, stamp: nat, until: nat, now: nat, time: nat)
    requires HeldBack(lag, a, time) && time <= now && stamp <= now
    requires now <= stamp + lag || until <= stamp + PROBE_INTERVAL
    ensures HeldBack(lag, Cooled(a, stamp, until), time)
  {
  }

  lemma NextKeepsInv(lag: nat, r: Run, e: Event)
    requires Inv(lag, r) && Legal(lag, r, e)
    ensures Inv(lag, Next(lag, r, e)) && |Next(lag, r, e).pool.accounts| == |r.pool.accounts|
  {
    hide Search, Place, Spaced;
    var accounts := r.pool.accounts;
    match e
    case PickEvent(now, stamp) =>
      var (pool, choice) := Pick(r.pool, stamp);
      if choice.Some? && ProbeDue(accounts[choice.value], stamp) {
        var idx := choice.value;
        forall i | 0 <= i < |r.probes| && r.probes[i].idx == idx
          ensures r.probes[i].time + PROBE_INTERVAL <= stamp + lag
        {
          assert HeldBack(lag, accounts[idx], r.probes[i].time);
        }
        SpacedAppend(r.probes, Probe(idx, now), PROBE_INTERVAL - lag);
      }
    case CoolEvent(now, idx, stamp, until) =>
      forall i | 0 <= i < |r.probes| && r.probes[i].idx == idx
        ensures HeldBack(lag, Cooled(accounts[idx], stamp, until), r.probes[i].time)
      {
        CoolHoldsBack(lag, accounts[idx], stamp, until, now, r.probes[i].time);
      }
    case ClearEvent(now, idx) =>
  }

  lemma SpacedAppend(probes: seq<Probe>, p: Probe, gap: int)
    requires Spaced(probes, gap)
    requires forall i :: 0 <= i < |probes| && probes[i].idx == p.idx ==> probes[i].time + gap <= p.time
    ensures Spaced(probes + [p], gap)
  {
  }

  ghost predicate Follows(lag: nat, r: Run, events: seq<Event>, end: Run)
    decreases |events|
  {
    if events == [] then end == r
    else
      Legal(lag, r, events[0]) && |r.touched| == |r.pool.accounts| &&
      Follows(lag, Next(lag, r, events[0]), events[1..], end)
  }

  lemma {:induction false} RunKeepsInv(lag: nat, r: Run, events: seq<Event>, end: Run)
    requires Inv(lag, r) && Follows(lag, r, events, end)
    ensures Inv(lag, end) && |end.pool.accounts| == |r.pool.accounts|
    decreases |events|
  {
    hide Legal, Next, Inv;
    if events != [] {
      NextKeepsInv(lag, r, events[0]);
      RunKeepsInv(lag, Next(lag, r, events[0]), events[1..], end);
    }
  }

  function Fresh(n: nat): Run {
    Run(Pool(seq(n, _ => READY), 0), 0, [], seq(n, _ => None))
  }

  lemma FreshInv(lag: nat, n: nat)
    ensures Inv(lag, Fresh(n))
  {
  }

  /**
   In every run from a fresh pool: probes of one account are at least probeInterval apart, less
   the lag of 429 stamps, clears in between or not; and from probeInterval after the last cool
   or probe of any one account on, pick succeeds.
   */
  lemma EveryRun(lag: nat, n: nat, events: seq<Event>, end: Run, now: nat, k: nat)
    requires Follows(lag, Fresh(n), events, end)
    ensures Spaced(end.probes, PROBE_INTERVAL - lag)
    ensures ValidPool(end.pool) && |end.touched| == |end.pool.accounts| == n
    ensures k < n && (end.touched[k].None? || now >= end.touched[k].value + 300 * SECOND) ==>
              Pick(end.pool, now).1.Some?
  {
    hide Search, Place, Spaced, Follows;
    FreshInv(lag, n);
    RunKeepsInv(lag, Fresh(n), events, end);
    if k < n {
      assert InTouch(end.pool.accounts[k], end.touched[k]);
      SearchNone(end.pool, now, false);
      SearchNone(end.pool, now, true);
    }
  }

  // ----- the bounds are exact -----

  lemma FollowsNothing(lag: nat, r: Run)
    ensures Follows(lag, r, [], r)
  {
  }

  /** One more event at the end of a run. */
  lemma {:induction false} Then(lag: nat, r: Run, events: seq<Event>, end: Run, e: Event)
    requires Follows(lag, r, events, end) && Legal(lag, end, e) && |end.touched| == |end.pool.accounts|
    ensures Follows(lag, r, events + [e], Next(lag, end, e))
    decreases |events|
  {
    hide Legal, Next;
    if events == [] {
      FollowsNothing(lag, Next(lag, r, e));
      assert ([] + [e])[1..] == [];
    } else {
      assert (events + [e])[0] == events[0] && (events + [e])[1..] == events[1..] + [e];
      Then(lag, Next(lag, r, events[0]), events[1..], end, e);
    }
  }

  /** The state in which the first k accounts were cooled at time 0, for as long as can be. */
  function CooledRun(n: nat, k: nat): Run {
    Run(Pool(seq(n, i => if i < k then Acct(MAX_COOLDOWN, PROBE_INTERVAL) else READY), 0), 0, [],
        seq(n, i => if i < k then Some(0) else None))
  }

  lemma CoolAll(lag: nat, n: nat, k: nat) returns (events: seq<Event>)
    requires k <= n
    ensures Follows(lag, Fresh(n), events, CooledRun(n, k))
  {
    if k == 0 {
      events := [];
      assert Fresh(n) == CooledRun(n, 0);
    } else {
      events := CoolAll(lag, n, k - 1);
      var e := CoolEvent(0, k - 1, 0, MAX_COOLDOWN);
      Then(lag, Fresh(n), events, CooledRun(n, k - 1), e);
      events := events + [e];
      assert Next(lag, CooledRun(n, k - 1), e) == CooledRun(n, k);
    }
  }

  /** When nobody is available, the first or second place is probed if it is the first that is due. */
  lemma PickProbes(p: Pool, now: nat, i: nat)
    requires ValidPool(p) && i < |p.accounts| && i <= 1 && p.active == 0
    requires forall k :: 0 <= k < |p.accounts| ==> !Available(p.accounts[k], now)
    requires ProbeDue(p.accounts[i], now) && (i == 1 ==> !ProbeDue(p.accounts[0], now))
    ensures Pick(p, now) == (Pool(p.accounts[i := Probed(p.accounts[i], now)], i), Some(i))
  {
    SearchNone(p, now, false);
    assert Place(p, 0) == 0 && Place(p, i) == i;
    assert Search(p, now, true, i) == Some(i);
    assert Search(p, now, true, 0) == Some(i);
  }

  /** Any two probes of any accounts are at least gap apart. */
  ghost predicate PoolSpaced(probes: seq<Probe>, gap: int) {
    forall i, j :: 0 <= i < j < |probes| ==> probes[i].time + gap <= probes[j].time
  }

  /** A pool of two accounts or more can have two of them probed at the same instant. */
  lemma ProbedTogether(n: nat) returns (events: seq<Event>, end: Run)
    requires n >= 2
    ensures Follows(0, Fresh(n), events, end)
    ensures |end.probes| == 2 && end.probes[0].time == end.probes[1].time && end.probes[0].idx != end.probes[1].idx
  {
    hide Follows, Search, Pick;
    var e := PickEvent(PROBE_INTERVAL, PROBE_INTERVAL);
    events := CoolAll(0, n, n);
    var r := CooledRun(n, n);
    PickProbes(r.pool, PROBE_INTERVAL, 0);
    Then(0, Fresh(n), events, r, e);
    var s := Next(0, r, e);
    PickProbes(s.pool, PROBE_INTERVAL, 1);
    Then(0, Fresh(n), events + [e], s, e);
    events, end := events + [e] + [e], Next(0, s, e);
  }

  /** Probes are spaced across the whole pool exactly when it has at most one account. */
  lemma SpacingIsPerAccount(n: nat)
    ensures (forall events, end :: Follows(0, Fresh(n), events, end) ==> PoolSpaced(end.probes, 300 * SECOND)) <==>
            n <= 1
  {
    hide Follows;
    if n <= 1 {
      forall events, end | Follows(0, Fresh(n), events, end) ensures PoolSpaced(end.probes, PROBE_INTERVAL) {
        FreshInv(0, n);
        RunKeepsInv(0, Fresh(n), events, end);
      }
    } else {
      var events, end := ProbedTogether(n);
      assert !PoolSpaced(end.probes, PROBE_INTERVAL);
    }
  }

  /**
   A 429 stamped before the lock is taken: the account is probed and released in between, so its
   reserved slot is lost and the next probe comes that much early.
   */
  lemma LateStamp(lag: nat, early: nat) returns (events: seq<Event>, end: Run)
    requires early <= lag && early <= PROBE_INTERVAL
    ensures Follows(lag, Fresh(1), events, end)
    ensures |end.probes| == 2 && end.probes[0].idx == end.probes[1].idx == 0
    ensures end.probes[1].time == end.probes[0].time + PROBE_INTERVAL - early
  {
    hide Follows, Search, Pick;
    events := CoolAll(lag, 1, 1);
    end := CooledRun(1, 1);
    PickProbes(end.pool, PROBE_INTERVAL, 0);
    events, end := Further(lag, 1, events, end, PickEvent(PROBE_INTERVAL, PROBE_INTERVAL));
    events, end := Further(lag, 1, events, end, ClearEvent(PROBE_INTERVAL, 0));
    events, end := Further(lag, 1, events, end, CoolEvent(PROBE_INTERVAL, 0, PROBE_INTERVAL - early, MAX_COOLDOWN));
    PickProbes(end.pool, 2 * PROBE_INTERVAL - early, 0);
    events, end := Further(lag, 1, events, end, PickEvent(2 * PROBE_INTERVAL - early, 2 * PROBE_INTERVAL - early));
  }

  lemma Further(lag: nat, n: nat, events: seq<Event>, end: Run, e: Event) returns (more: seq<Event>, next: Run)
    requires Follows(lag, Fresh(n), events, end) && Legal(lag, end, e) && |end.touched| == |end.pool.accounts|
    ensures Follows(lag, Fresh(n), more, next) && next == Next(lag, end, e)
  {
    more, next := events + [e], Next(lag, end, e);
    Then(lag, Fresh(n), events, end, e);
  }

  /** The spacing of one account's probes, exactly: probeInterval less the lag. */
  lemma SpacingExactly(lag: nat, gap: nat)
    ensures (forall n: nat, events, end :: Follows(lag, Fresh(n), events, end) ==> Spaced(end.probes, gap)) <==>
            gap == 0 || gap + lag <= 300 * SECOND
  {
    hide Follows;
    if gap == 0 || gap + lag <= PROBE_INTERVAL {
      forall n: nat, events, end | Follows(lag, Fresh(n), events, end) ensures Spaced(end.probes, gap) {
        FreshInv(lag, n);
        RunKeepsInv(lag, Fresh(n), events, end);
        if gap == 0 { RunInOrder(lag, Fresh(n), events, end); }
      }
    } else {
      var events, end := LateStamp(lag, if lag < PROBE_INTERVAL then lag else PROBE_INTERVAL);
      assert !Spaced(end.probes, gap);
    }
  }

  ghost predicate InOrder(r: Run) {
    PoolSpaced(r.probes, 0) && forall i :: 0 <= i < |r.probes| ==> r.probes[i].time <= r.clock
  }

  lemma {:induction false} RunInOrder(lag: nat, r: Run, events: seq<Event>, end: Run)
    requires InOrder(r) && Follows(lag, r, events, end)
    ensures InOrder(end)
    decreases |events|
  {
    hide Pick;
    if events != [] { RunInOrder(lag, Next(lag, r, events[0]), events[1..], end); }
  }
}
