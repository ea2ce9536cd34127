/**
 The single-flight catalog of one account (service_tiers.go, accountTierModels) as a state
 machine: any number of callers, each step one critical section or one wake-up.
 */
module TierCatalog {
  import opened Base

  const SUCCESS_TTL := 300 * SECOND
  const FAILURE_TTL := 30 * SECOND

  /** How a fetch ended. Cancelled means that the fetching caller's own context was done. */
  datatype Kind = Fetched | FetchFailed | Cancelled

  function Ttl(kind: Kind): nat {
    match kind
    case Fetched => SUCCESS_TTL
    case FetchFailed => FAILURE_TTL
    case Cancelled => 0
  }

  /** A stored catalog or error; `fetcher` is the caller that fetched it. */
  datatype Stored = Stored(value: int, kind: Kind, fetcher: nat)

  datatype Place =
    | Deciding                     // at the top of the loop
    | Waiting(channel: nat)
    | Fetching
    | Served(stored: Stored, at: nat)  // returned the value cached then
    | Fetcher(stored: Stored)      // returned what it fetched itself
    | GaveUp                       // its context ended while it waited

  datatype Mark = Start(time: nat) | Store(time: nat, stored: Stored)

  /** `closed` lists the closes of ready channels and `history` the fetches, in order. */
  datatype State = State(now: nat, ready: Option<nat>, made: nat, closed: seq<nat>, cache: Option<Stored>,
                         expires: nat, callers: map<nat, Place>, history: seq<Mark>)

  datatype Step =
    | Tick(time: nat)
    | Enter(c: nat)
    | Decide(c: nat)
    | Wake(c: nat)
    | Quit(c: nat)
    | Finish(c: nat, value: int, kind: Kind)

  const INITIAL := State(0, None, 0, [], None, 0, map[], [])

  predicate Enabled(s: State, step: Step) {
    match step
    case Tick(time) => s.now <= time
    case Enter(c) => c in s.callers ==> s.callers[c].Served? || s.callers[c].Fetcher? || s.callers[c].GaveUp?
    case Decide(c) => c in s.callers && s.callers[c].Deciding?
    case Wake(c) => c in s.callers && s.callers[c].Waiting? && s.callers[c].channel in s.closed
    case Quit(c) => c in s.callers && s.callers[c].Waiting?
    case Finish(c, _, _) => c in s.callers && s.callers[c].Fetching?
  }

  function Move(s: State, c: nat, place: Place): State {
    s.(callers := s.callers[c := place])
  }

  function Next(s: State, step: Step): State {
    match step
    case Tick(time) => s.(now := time)
    case Enter(c) => Move(s, c, Deciding)
    case Decide(c) =>
      if s.now < s.expires && s.cache.Some? then Move(s, c, Served(s.cache.value, s.now))
      else if s.ready.Some? then Move(s, c, Waiting(s.ready.value))
      else Move(s.(ready := Some(s.made), made := s.made + 1, history := s.history + [Start(s.now)]), c, Fetching)
    case Wake(c) => Move(s, c, Deciding)
    case Quit(c) => Move(s, c, GaveUp)
    case Finish(c, value, kind) =>
      var stored := Stored(value, kind, c);
      Move(s.(cache := Some(stored), expires := s.now + Ttl(kind), ready := None,
              closed := if s.ready.Some? then s.closed + [s.ready.value] else s.closed,
              history := s.history + [Store(s.now, stored)]), c, Fetcher(stored))
  }

  // ----- the invariant -----

  ghost predicate NoDuplicates(closed: seq<nat>) {
    forall i, j :: 0 <= i < j < |closed| ==> closed[i] != closed[j]
  }

  /** Starts and stores alternate: no fetch begins while another runs. */
  ghost predicate Alternates(history: seq<Mark>) {
    forall i :: 0 <= i < |history| ==> (history[i].Start? <==> i % 2 == 0)
  }

  ghost predicate Ordered(history: seq<Mark>, now: nat) {
    (forall i, j :: 0 <= i < j < |history| ==> history[i].time <= history[j].time) &&
    forall i :: 0 <= i < |history| ==> history[i].time <= now
  }

  /** No fetch starts before what was stored earlier has run out. */
  ghost predicate Rested(history: seq<Mark>) {
    forall i, j :: 0 <= i < j < |history| && history[i].Store? && history[j].Start? ==>
      history[i].time + Ttl(history[i].stored.kind) <= history[j].time
  }

  ghost predicate OneFetcher(s: State) {
    && (forall c, d :: c in s.callers && d in s.callers && s.callers[c].Fetching? && s.callers[d].Fetching? ==> c == d)
    && (s.ready.Some? <==> exists c :: c in s.callers && s.callers[c].Fetching?)
  }

  /** Channels are closed once each; a waiter's channel is closed or will be by the running fetch. */
  ghost predicate Channels(s: State) {
    && NoDuplicates(s.closed)
    && (forall i :: 0 <= i < |s.closed| ==> s.closed[i] < s.made)
    && (s.ready.Some? ==> s.ready.value < s.made && s.ready.value !in s.closed)
    && (forall c :: c in s.callers && s.callers[c].Waiting? ==>
          s.callers[c].channel in s.closed || s.ready == Some(s.callers[c].channel))
  }

  /** A cancelled caller's result has expired by the time anyone else can look at it. */
  ghost predicate NotPoisoned(s: State) {
    && (s.cache.Some? && s.cache.value.kind.Cancelled? ==> s.expires <= s.now)
    && (forall c :: c in s.callers && s.callers[c].Served? ==> !s.callers[c].stored.kind.Cancelled?)
  }

  ghost predicate Timeline(s: State) {
    && Alternates(s.history) && Ordered(s.history, s.now) && Rested(s.history)
    && (s.ready.Some? <==> |s.history| % 2 == 1)
    && (s.ready.None? && s.history != [] ==>
          var last := s.history[|s.history| - 1];
          last.Store? && s.expires == last.time + Ttl(last.stored.kind))
    && (s.expires > 0 ==> s.cache.Some?)
  }

  /** The last outcome stored, if any. */
  function Latest(history: seq<Mark>): (r: Option<Mark>)
    ensures r.Some? ==> r.value.Store?
  {
    if history == [] then None
    else if history[|history| - 1].Store? then Some(history[|history| - 1])
    else Latest(history[..|history| - 1])
  }

  /** Mark i was the last one stored at time `at`, and its value was still good then. */
  ghost predicate GoodAt(history: seq<Mark>, i: nat, at: nat) {
    i < |history| && history[i].Store? && history[i].time <= at < history[i].time + Ttl(history[i].stored.kind) &&
    forall j :: i < j < |history| && history[j].Store? ==> at <= history[j].time
  }

  /** What a caller was given is what a fetcher fetched: the latest outcome, still good; or its own. */
  ghost predicate GivenRightly(s: State, c: nat, place: Place) {
    match place
    case Served(stored, at) =>
      at <= s.now && exists i: nat :: GoodAt(s.history, i, at) && s.history[i].stored == stored
    case Fetcher(stored) =>
      stored.fetcher == c && exists i :: 0 <= i < |s.history| && s.history[i].Store? && s.history[i].stored == stored
    case _ => true
  }

  ghost predicate Honest(s: State) {
    && (s.cache.Some? ==> Latest(s.history).Some? && Latest(s.history).value.stored == s.cache.value &&
                          s.expires == Latest(s.history).value.time + Ttl(s.cache.value.kind))
    && (forall c :: c in s.callers ==> GivenRightly(s, c, s.callers[c]))
  }

  ghost predicate Inv(s: State) {
    OneFetcher(s) && Channels(s) && NotPoisoned(s) && Timeline(s) && Honest(s)
  }

  lemma {:induction false} LatestIs(history: seq<Mark>)
    ensures match Latest(history)
            case None => forall i :: 0 <= i < |history| ==> !history[i].Store?
            case Some(m) => exists i :: 0 <= i < |history| && history[i] == m && m.Store? &&
                                        forall j :: i < j < |history| ==> !history[j].Store?
  {
    if history != [] && !history[|history| - 1].Store? { LatestIs(history[..|history| - 1]); }
  }

  /** What was given rightly stays so as time goes on and more is stored. */
  lemma StaysRight(s: State, t: State, c: nat, place: Place)
    requires GivenRightly(s, c, place) && s.now <= t.now
    requires t.history == s.history || (exists m :: t.history == s.history + [m] && m.time == s.now)
    ensures GivenRightly(t, c, place)
  {
    match place
    case Served(stored, at) =>
      var i: nat :| GoodAt(s.history, i, at) && s.history[i].stored == stored;
      assert GoodAt(t.history, i, at) && t.history[i].stored == stored;
    case Fetcher(stored) =>
      var i :| 0 <= i < |s.history| && s.history[i].Store? && s.history[i].stored == stored;
      assert t.history[i] == s.history[i];
    case _ =>
  }

  lemma LatestSnoc(history: seq<Mark>, m: Mark)
    ensures Latest(history + [m]) == if m.Store? then Some(m) else Latest(history)
  {
    assert (history + [m])[..|history|] == history;
  }

  lemma HonestKept(s: State, step: Step)
    requires Honest(s) && Ordered(s.history, s.now) && Enabled(s, step)
    ensures Honest(Next(s, step))
  {
    hide Latest, GoodAt, GivenRightly, Ordered;
    var t := Next(s, step);
    if t.history != s.history {
      assert t.history == s.history + [t.history[|s.history|]];
      LatestSnoc(s.history, t.history[|s.history|]);
    }
    forall d | d in t.callers ensures GivenRightly(t, d, t.callers[d]) {
      if d in s.callers && t.callers[d] == s.callers[d] {
        StaysRight(s, t, d, s.callers[d]);
      } else {
        GivenNow(s, step, d);
      }
    }
  }

  /** Whoever is given something by this step is given it rightly. */
  lemma GivenNow(s: State, step: Step, d: nat)
    requires Honest(s) && Ordered(s.history, s.now) && Enabled(s, step)
    requires d in Next(s, step).callers && (d in s.callers ==> Next(s, step).callers[d] != s.callers[d])
    ensures GivenRightly(Next(s, step), d, Next(s, step).callers[d])
  {
    var t := Next(s, step);
    match t.callers[d]
    case Served(stored, at) =>
      LatestIs(s.history);
      var i :| 0 <= i < |s.history| && s.history[i] == Latest(s.history).value &&
               forall j :: i < j < |s.history| ==> !s.history[j].Store?;
      assert GoodAt(t.history, i, at);
    case Fetcher(stored) =>
      assert t.history[|s.history|] == Store(s.now, stored);
    case _ =>
  }

  lemma OneFetcherKept(s: State, step: Step)
    requires OneFetcher(s) && Enabled(s, step)
    ensures OneFetcher(Next(s, step))
  {
    var t := Next(s, step);
    match step
    case Tick(_) =>
      assert t.callers == s.callers;
    case Finish(c, _, _) =>
      assert forall d :: d in t.callers && t.callers[d].Fetching? ==> d in s.callers && s.callers[d].Fetching? && d != c;
    case Decide(c) =>
      if t.callers[c].Fetching? {
        assert forall d :: d in s.callers ==> !s.callers[d].Fetching?;
      } else {
        SameFetchers(s, t, c);
      }
    case Enter(c) => SameFetchers(s, t, c);
    case Wake(c) => SameFetchers(s, t, c);
    case Quit(c) => SameFetchers(s, t, c);
  }

  lemma SameFetchers(s: State, t: State, c: nat)
    requires OneFetcher(s) && t.ready == s.ready && c in t.callers && t.callers == s.callers[c := t.callers[c]]
    requires !t.callers[c].Fetching? && (c in s.callers ==> !s.callers[c].Fetching?)
    ensures OneFetcher(t)
  {
    if s.ready.Some? {
      var d :| d in s.callers && s.callers[d].Fetching?;
      assert t.callers[d].Fetching?;
    }
  }

  lemma ChannelsKept(s: State, step: Step)
    requires OneFetcher(s) && Channels(s) && Enabled(s, step)
    ensures Channels(Next(s, step))
  {
  }

  lemma NotPoisonedKept(s: State, step: Step)
    requires NotPoisoned(s) && Enabled(s, step)
    ensures NotPoisoned(Next(s, step))
  {
  }

  lemma RestedStart(history: seq<Mark>, now: nat)
    requires Rested(history) && Alternates(history) && Ordered(history, now) && |history| % 2 == 0
    requires history != [] ==>
               var last := history[|history| - 1]; last.Store? && last.time + Ttl(last.stored.kind) <= now
    ensures Rested(history + [Start(now)])
  {
    var n := |history|;
    forall i | 0 <= i < n && history[i].Store? ensures history[i].time + Ttl(history[i].stored.kind) <= now {
      if i < n - 1 {
        assert history[n - 2].Start?;
        assert i < n - 2;
      }
    }
  }

  lemma RestedStore(history: seq<Mark>, m: Mark)
    requires Rested(history) && m.Store?
    ensures Rested(history + [m])
  {
  }

  lemma HistoryAppend(history: seq<Mark>, m: Mark, now: nat)
    requires Alternates(history) && Ordered(history, now) && m.time == now
    requires m.Start? <==> |history| % 2 == 0
    ensures Alternates(history + [m]) && Ordered(history + [m], now)
  {
  }

  lemma TimelineKept(s: State, step: Step)
    requires OneFetcher(s) && Timeline(s) && Enabled(s, step)
    ensures Timeline(Next(s, step))
  {
    hide Rested, Alternates;
    var t := Next(s, step);
    match step
    case Decide(c) =>
      if t.callers[c].Fetching? {
        RestedStart(s.history, s.now);
        HistoryAppend(s.history, Start(s.now), s.now);
      }
    case Finish(c, value, kind) =>
      RestedStore(s.history, Store(s.now, Stored(value, kind, c)));
      HistoryAppend(s.history, Store(s.now, Stored(value, kind, c)), s.now);
    case _ =>
  }

  // ----- every interleaving -----

  lemma InOrder(s: State)
    requires Timeline(s)
    ensures Ordered(s.history, s.now)
  {
  }

  lemma NextKeepsInv(s: State, step: Step)
    requires Inv(s) && Enabled(s, step)
    ensures Inv(Next(s, step))
  {
    hide OneFetcher, Channels, NotPoisoned, Timeline, Honest, Ordered, Next, Enabled;
    OneFetcherKept(s, step);
    ChannelsKept(s, step);
    NotPoisonedKept(s, step);
    HonestKept(s, step) by { InOrder(s); }
    TimelineKept(s, step);
  }

  ghost predicate Reaches(s: State, steps: seq<Step>, end: State)
    decreases |steps|
  {
    if steps == [] then end == s else Enabled(s, steps[0]) && Reaches(Next(s, steps[0]), steps[1..], end)
  }

  lemma {:induction false} RunKeepsInv(s: State, steps: seq<Step>, end: State)
    requires Inv(s) && Reaches(s, steps, end)
    ensures Inv(end)
    decreases |steps|
  {
    hide OneFetcher, Channels, NotPoisoned, Timeline, Honest, Ordered, Next, Enabled;
    if steps != [] {
      NextKeepsInv(s, steps[0]);
      RunKeepsInv(Next(s, steps[0]), steps[1..], end);
    }
  }

  /** The step by which this outcome was fetched. */
  ghost predicate FetchedIn(steps: seq<Step>, stored: Stored) {
    exists k :: 0 <= k < |steps| && steps[k] == Finish(stored.fetcher, stored.value, stored.kind)
  }

  /** Everything stored was fetched, with that value, by that caller. */
  lemma {:induction false} StoredWasFetched(s: State, steps: seq<Step>, end: State)
    requires Reaches(s, steps, end)
    ensures s.history <= end.history
    ensures forall i :: |s.history| <= i < |end.history| && end.history[i].Store? ==> FetchedIn(steps, end.history[i].stored)
    decreases |steps|
  {
    hide Enabled;
    if steps != [] {
      var t := Next(s, steps[0]);
      StoredWasFetched(t, steps[1..], end);
      forall i | |s.history| <= i < |end.history| && end.history[i].Store? ensures FetchedIn(steps, end.history[i].stored) {
        var stored := end.history[i].stored;
        if i < |t.history| {
          assert steps[0] == Finish(stored.fetcher, stored.value, stored.kind);
        } else {
          var k :| 0 <= k < |steps[1..]| && steps[1..][k] == Finish(stored.fetcher, stored.value, stored.kind);
          assert steps[k + 1] == steps[1..][k];
        }
      }
    }
  }

  /**
   In every interleaving: one fetch at a time, ready set exactly while it runs, each channel
   closed once, no cancelled result served, and fetches rest as long as what they stored lives. A
   caller is served the latest outcome while it is good, or gets what it fetched itself.
   */
  lemma EveryInterleaving(steps: seq<Step>, end: State)
    requires Reaches(INITIAL, steps, end)
    ensures OneFetcher(end) && Channels(end)
    ensures forall c :: c in end.callers && end.callers[c].Served? ==> !end.callers[c].stored.kind.Cancelled?
    ensures Alternates(end.history) && Rested(end.history)
    ensures forall c :: c in end.callers ==> GivenRightly(end, c, end.callers[c])
    ensures forall i :: 0 <= i < |end.history| && end.history[i].Store? ==> FetchedIn(steps, end.history[i].stored)
    ensures forall kind :: Ttl(kind) == SECOND * (match kind case Fetched => 300 case FetchFailed => 30 case Cancelled => 0)
  {
    hide FetchedIn;
    RunKeepsInv(INITIAL, steps, end);
    StoredWasFetched(INITIAL, steps, end);
  }

  // ----- the object -----

  /** accountTierCatalog and its two critical sections; `all` is the state of everyone involved. */
  class AccountTierCatalog {
    var ready: Option<nat>
    var made: nat
    var stored: Option<Stored>
    var expires: nat
    ghost var all: State

    constructor ()
      ensures Valid() && all == INITIAL
    {
      ready, made, stored, expires := None, 0, None, 0;
      all := INITIAL;
    }

    ghost predicate Valid()
      reads this
    {
      Inv(all) && ready == all.ready && made == all.made && stored == all.cache && expires == all.expires
    }

    /** The top of the loop: return the cached value, wait for the running fetch, or start one. */
    method Look(c: nat, now: nat) returns (place: Place)
      requires Valid() && Enabled(all, Decide(c)) && now == all.now
      modifies this
      ensures Valid() && all == Next(old(all), Decide(c)) && place == all.callers[c]
    {
      hide OneFetcher, Channels, NotPoisoned, Alternates, Ordered, Rested;
      NextKeepsInv(all, Decide(c));
      all := Next(all, Decide(c));
      if now < expires && stored.Some? { return Served(stored.value, now); }
      if ready.Some? { return Waiting(ready.value); }
      ready := Some(made);
      made := made + 1;
      return Fetching;
    }

    /** After the fetch: store its outcome, let the waiters go, and return it. */
    method Store(c: nat, value: int, failed: bool, cancelled: bool, now: nat) returns (closed: Option<nat>)
      requires Valid() && Enabled(all, Finish(c, value, KindOf(failed, cancelled))) && now == all.now
      modifies this
      ensures Valid() && all == Next(old(all), Finish(c, value, KindOf(failed, cancelled)))
      ensures closed == old(ready) && closed.Some? && ready.None?
    {
      hide Channels, NotPoisoned, Alternates, Ordered, Rested;
      NextKeepsInv(all, Finish(c, value, KindOf(failed, cancelled)));
      closed := ready;
      var ttl := SUCCESS_TTL;
      if failed { ttl := FAILURE_TTL; }
      if cancelled { ttl := 0; }
      stored, expires := Some(Stored(value, KindOf(failed, cancelled), c)), now + ttl;
      ready := None;
      all := Next(all, Finish(c, value, KindOf(failed, cancelled)));
    }
  }

  function KindOf(failed: bool, cancelled: bool): Kind {
    if cancelled then Cancelled else if failed then FetchFailed else Fetched
  }
}
