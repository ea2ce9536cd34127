/** The two aggregators over the retained history (costs.go, usage_by_user.go), in exact arithmetic. */
module Usage {
  import opened Base

  /** A retained entry: when it started (None if unparsable), whose it is, and what it used. */
  datatype Entry = Entry(started: Option<int>, user: string, model: string,
                         input: Option<int>, output: Option<int>, cached: Option<int>, cacheWrite: Option<int>,
                         codexCost: Option<real>, apiCost: Option<real>)

  /** Sums of some entries. */
  datatype Tally = Tally(requests: int, cost: real, input: int, output: int, cached: int, cacheWrite: int) {
    function Plus(t: Tally): Tally {
      Tally(requests + t.requests, cost + t.cost, input + t.input, output + t.output, cached + t.cached,
            cacheWrite + t.cacheWrite)
    }

    predicate AtMost(t: Tally) {
      requests <= t.requests && cost <= t.cost && input <= t.input && output <= t.output && cached <= t.cached &&
      cacheWrite <= t.cacheWrite
    }
  }

  const ZERO := Tally(0, 0.0, 0, 0, 0, 0)

  function Count(n: Option<int>): int {
    if n.Some? then n.value else 0
  }

  function CostOf(e: Entry, api: bool): Option<real> {
    if api then e.apiCost else e.codexCost
  }

  function Amount(cost: Option<real>): real {
    if cost.Some? then cost.value else 0.0
  }

  function One(e: Entry, api: bool): Tally {
    Tally(1, Amount(CostOf(e, api)), Count(e.input), Count(e.output), Count(e.cached), Count(e.cacheWrite))
  }

  /** Age 0 is unbounded; entries without a start time never count. */
  predicate Within(e: Entry, now: int, age: int) {
    e.started.Some? && !(age > 0 && now - e.started.value > age)
  }

  // ----- the per-window costs -----

  datatype Window = Window(totals: Tally, priced: int, models: map<string, Tally>)

  const EMPTY := Window(ZERO, 0, map[])

  function Get<K>(m: map<K, Tally>, k: K): Tally {
    if k in m then m[k] else ZERO
  }

  function Bump<K>(m: map<K, Tally>, k: K, t: Tally): map<K, Tally> {
    m[k := Get(m, k).Plus(t)]
  }

  function Record(w: Window, e: Entry, now: int, age: int, api: bool): Window {
    if !Within(e, now, age) then w
    else
      var totals := w.totals.Plus(One(e, api));
      if CostOf(e, api).None? then w.(totals := totals)
      else Window(totals, w.priced + 1, Bump(w.models, e.model, One(e, api)))
  }

  function WindowOf(entries: seq<Entry>, now: int, age: int, api: bool): Window {
    if entries == [] then EMPTY
    else Record(WindowOf(entries[..|entries| - 1], now, age, api), entries[|entries| - 1], now, age, api)
  }

  const HOUR := 3600 * SECOND
  const AGES := [24 * HOUR, 7 * 24 * HOUR, 30 * 24 * HOUR, 0]

  /** costSummary: one pass over the history, every window updated for each entry. */
  method CostSummary(entries: seq<Entry>, now: int, api: bool) returns (windows: seq<Window>)
    ensures |windows| == |AGES|
    ensures forall w :: 0 <= w < |AGES| ==> windows[w] == WindowOf(entries, now, AGES[w], api)
  {
    hide Record;
    windows := seq(|AGES|, _ => EMPTY);
    for n := 0 to |entries|
      invariant |windows| == |AGES|
      invariant forall w :: 0 <= w < |AGES| ==> windows[w] == WindowOf(entries[..n], now, AGES[w], api)
    {
      var e := entries[n];
      assert entries[..n + 1][..n] == entries[..n];
      for w := 0 to |AGES|
        invariant |windows| == |AGES|
        invariant forall v :: 0 <= v < w ==> windows[v] == WindowOf(entries[..n + 1], now, AGES[v], api)
        invariant forall v :: w <= v < |AGES| ==> windows[v] == WindowOf(entries[..n], now, AGES[v], api)
      {
        windows := windows[w := Record(windows[w], e, now, AGES[w], api)];
      }
    }
    assert entries[..|entries|] == entries;
  }

  // ----- the per-user rows -----

  datatype Key = Key(user: string, model: string)

  datatype Rows = Rows(requests: int, rows: map<Key, Tally>)

  function KeyOf(e: Entry): Key {
    Key(e.user, e.model)
  }

  function RowsOf(entries: seq<Entry>, now: int, age: int): Rows {
    if entries == [] then Rows(0, map[])
    else
      var r, e := RowsOf(entries[..|entries| - 1], now, age), entries[|entries| - 1];
      if !Within(e, now, age) then r else Rows(r.requests + 1, Bump(r.rows, KeyOf(e), One(e, false)))
  }

  method UserUsageSummary(entries: seq<Entry>, now: int, age: int) returns (summary: Rows)
    ensures summary == RowsOf(entries, now, age)
  {
    var requests, rows: map<Key, Tally> := 0, map[];
    for n := 0 to |entries|
      invariant Rows(requests, rows) == RowsOf(entries[..n], now, age)
    {
      var e := entries[n];
      assert entries[..n + 1][..n] == entries[..n];
      if e.started.None? { continue; }
      if age > 0 && now - e.started.value > age { continue; }
      requests := requests + 1;
      var k := KeyOf(e);
      var row := if k in rows then rows[k] else ZERO;
      rows := rows[k := row.Plus(One(e, false))];
    }
    assert entries[..|entries|] == entries;
    summary := Rows(requests, rows);
  }

  // ----- sums over maps -----

  ghost function Sum<K>(m: map<K, Tally>): Tally
    decreases |m|
  {
    if m == map[] then ZERO
    else
      var k :| k in m;
      assert (m - {k}).Keys == m.Keys - {k};
      m[k].Plus(Sum(m - {k}))
  }

  lemma {:induction false} SumWithout<K>(m: map<K, Tally>, k: K)
    requires k in m
    ensures Sum(m) == m[k].Plus(Sum(m - {k}))
    decreases |m|
  {
    var c: K :| c in m && Sum(m) == m[c].Plus(Sum(m - {c}));
    if c != k {
      Smaller(m, c);
      Smaller(m, k);
      SumWithout(m - {c}, k);
      SumWithout(m - {k}, c);
      assert m - {c} - {k} == m - {k} - {c};
      assert (m - {c})[k] == m[k] && (m - {k})[c] == m[c];
      assert m[c].Plus(m[k].Plus(Sum(m - {c} - {k}))) == m[k].Plus(m[c].Plus(Sum(m - {k} - {c})));
    }
  }

  lemma Smaller<K>(m: map<K, Tally>, k: K)
    requires k in m
    ensures |m - {k}| < |m|
  {
  }

  /** Adding to one row adds to the sum of the rows. */
  lemma SumBump<K>(m: map<K, Tally>, k: K, t: Tally)
    ensures Sum(Bump(m, k, t)) == Sum(m).Plus(t)
  {
    var b := Bump(m, k, t);
    SumWithout(b, k);
    assert b - {k} == m - {k};
    if k in m { SumWithout(m, k); } else { assert m - {k} == m; }
  }

  // ----- conservation -----

  /** The entries counted, added up with no grouping at all. */
  function Plain(entries: seq<Entry>, now: int, age: int, api: bool): Tally {
    if entries == [] then ZERO
    else
      var t, e := Plain(entries[..|entries| - 1], now, age, api), entries[|entries| - 1];
      if Within(e, now, age) then t.Plus(One(e, api)) else t
  }

  lemma {:induction false} WindowConserves(entries: seq<Entry>, now: int, age: int, api: bool)
    ensures var w := WindowOf(entries, now, age, api);
            w.totals == Plain(entries, now, age, api) && Sum(w.models).cost == w.totals.cost &&
            Sum(w.models).requests == w.priced
  {
    if entries != [] {
      var n := |entries| - 1;
      WindowConserves(entries[..n], now, age, api);
      SumBump(WindowOf(entries[..n], now, age, api).models, entries[n].model, One(entries[n], api));
    }
  }

  lemma {:induction false} RowsConserve(entries: seq<Entry>, now: int, age: int)
    ensures var r := RowsOf(entries, now, age);
            Sum(r.rows) == Plain(entries, now, age, false) && r.requests == Sum(r.rows).requests
  {
    if entries != [] {
      var n := |entries| - 1;
      RowsConserve(entries[..n], now, age);
      SumBump(RowsOf(entries[..n], now, age).rows, KeyOf(entries[n]), One(entries[n], false));
    }
  }

  /** The rows for any age add up to the totals of the cost window of that age, Codex pricing. */
  lemma RowsMatchWindow(entries: seq<Entry>, now: int, age: int)
    ensures var w, r := WindowOf(entries, now, age, false), RowsOf(entries, now, age);
            Sum(r.rows) == w.totals && r.requests == w.totals.requests
  {
    WindowConserves(entries, now, age, false);
    RowsConserve(entries, now, age);
  }

  /** One user's use of one model, added up directly. */
  function Share(entries: seq<Entry>, now: int, age: int, k: Key): Tally {
    if entries == [] then ZERO
    else
      var t, e := Share(entries[..|entries| - 1], now, age, k), entries[|entries| - 1];
      if Within(e, now, age) && KeyOf(e) == k then t.Plus(One(e, false)) else t
  }

  lemma {:induction false} RowIsShare(entries: seq<Entry>, now: int, age: int, k: Key)
    ensures Get(RowsOf(entries, now, age).rows, k) == Share(entries, now, age, k)
  {
    if entries != [] { RowIsShare(entries[..|entries| - 1], now, age, k); }
  }

  // ----- nesting -----

  predicate NonNegative(e: Entry) {
    Count(e.input) >= 0 && Count(e.output) >= 0 && Count(e.cached) >= 0 && Count(e.cacheWrite) >= 0 &&
    Amount(e.codexCost) >= 0.0 && Amount(e.apiCost) >= 0.0
  }

  predicate Wider(age: int, wider: int) {
    wider <= 0 || 0 < age <= wider
  }

  lemma {:induction false} PlainNests(entries: seq<Entry>, now: int, age: int, wider: int, api: bool)
    requires Wider(age, wider) && forall e :: e in entries ==> NonNegative(e)
    ensures Plain(entries, now, age, api).AtMost(Plain(entries, now, wider, api))
  {
    if entries != [] {
      var n := |entries| - 1;
      assert entries[n] in entries;
      PlainNests(entries[..n], now, age, wider, api);
    }
  }

  /** 24h within 7d within 30d within all, in every total. */
  lemma WindowsNest(entries: seq<Entry>, now: int, api: bool, i: nat)
    requires i + 1 < |AGES| && forall e :: e in entries ==> NonNegative(e)
    ensures WindowOf(entries, now, AGES[i], api).totals.AtMost(WindowOf(entries, now, AGES[i + 1], api).totals)
  {
    WindowConserves(entries, now, AGES[i], api);
    WindowConserves(entries, now, AGES[i + 1], api);
    PlainNests(entries, now, AGES[i], AGES[i + 1], api);
  }

  // ----- each figure on its own -----

  /** Which entries a figure is about: all, the priced ones, those of a model, or a user's use of a model. */
  datatype Which = All | Priced(api: bool) | PricedModel(api: bool, model: string) | UsedBy(user: string, model: string)

  predicate HasPrice(e: Entry, api: bool) {
    if api then e.apiCost.Some? else e.codexCost.Some?
  }

  predicate Selects(which: Which, e: Entry) {
    match which
    case All => true
    case Priced(api) => HasPrice(e, api)
    case PricedModel(api, model) => HasPrice(e, api) && e.model == model
    case UsedBy(user, model) => e.user == user && e.model == model
  }

  /** What is added up. */
  datatype Figure = Requests | CodexCost | ApiCost | Input | Output | CachedInput | CacheWrites

  function Tokens(n: Option<int>): real {
    if n.Some? then n.value as real else 0.0
  }

  function Dollars(x: Option<real>): real {
    if x.Some? then x.value else 0.0
  }

  function ValueIn(figure: Figure, e: Entry): real {
    match figure
    case Requests => 1.0
    case CodexCost => Dollars(e.codexCost)
    case ApiCost => Dollars(e.apiCost)
    case Input => Tokens(e.input)
    case Output => Tokens(e.output)
    case CachedInput => Tokens(e.cached)
    case CacheWrites => Tokens(e.cacheWrite)
  }

  /** An entry counts if it did not start before now - age, where an age bounds the window. */
  predicate Counts(e: Entry, now: int, age: int) {
    e.started.Some? && (age <= 0 || e.started.value >= now - age)
  }

  function Sums(entries: seq<Entry>, now: int, age: int, figure: Figure, which: Which): real {
    if entries == [] then 0.0
    else
      var e := entries[|entries| - 1];
      Sums(entries[..|entries| - 1], now, age, figure, which) +
      (if Counts(e, now, age) && Selects(which, e) then ValueIn(figure, e) else 0.0)
  }

  /** Each figure of a tally is the sum of that figure over the entries selected. */
  ghost predicate TallyIs(t: Tally, entries: seq<Entry>, now: int, age: int, api: bool, which: Which) {
    && t.requests as real == Sums(entries, now, age, Requests, which)
    && t.cost == Sums(entries, now, age, if api then ApiCost else CodexCost, which)
    && t.input as real == Sums(entries, now, age, Input, which)
    && t.output as real == Sums(entries, now, age, Output, which)
    && t.cached as real == Sums(entries, now, age, CachedInput, which)
    && t.cacheWrite as real == Sums(entries, now, age, CacheWrites, which)
  }

  lemma SumsStep(entries: seq<Entry>, now: int, age: int, figure: Figure, which: Which)
    requires entries != []
    ensures var e := entries[|entries| - 1];
            Sums(entries, now, age, figure, which) ==
            Sums(entries[..|entries| - 1], now, age, figure, which) +
            (if Counts(e, now, age) && Selects(which, e) then ValueIn(figure, e) else 0.0)
  {
  }

  lemma TallyStep(t: Tally, entries: seq<Entry>, now: int, age: int, api: bool, which: Which)
    requires entries != [] && TallyIs(t, entries[..|entries| - 1], now, age, api, which)
    ensures var e := entries[|entries| - 1];
            TallyIs(if Counts(e, now, age) && Selects(which, e) then t.Plus(One(e, api)) else t,
                    entries, now, age, api, which)
  {
    hide Sums, Counts, Selects;
    forall figure: Figure ensures
      var e := entries[|entries| - 1];
      Sums(entries, now, age, figure, which) ==
      Sums(entries[..|entries| - 1], now, age, figure, which) +
      (if Counts(e, now, age) && Selects(which, e) then ValueIn(figure, e) else 0.0)
    {
      SumsStep(entries, now, age, figure, which);
    }
  }

  lemma TallyNothing(now: int, age: int, api: bool, which: Which)
    ensures TallyIs(ZERO, [], now, age, api, which)
  {
  }

  lemma CountsWithin(e: Entry, now: int, age: int)
    ensures Within(e, now, age) <==> Counts(e, now, age)
  {
  }

  /** A window, figure by figure: its totals, its Priced count, and each model's share of the priced entries. */
  lemma {:induction false} WindowExactly(entries: seq<Entry>, now: int, age: int, api: bool, model: string)
    ensures var w := WindowOf(entries, now, age, api);
            && TallyIs(w.totals, entries, now, age, api, All)
            && w.priced as real == Sums(entries, now, age, Requests, Priced(api))
            && TallyIs(Get(w.models, model), entries, now, age, api, PricedModel(api, model))
  {
    hide TallyIs, Within, Counts, One, Sums;
    if entries == [] {
      TallyNothing(now, age, api, All);
      TallyNothing(now, age, api, PricedModel(api, model));
      assert Sums([], now, age, Requests, Priced(api)) == 0.0 by { NoSums(now, age, api); }
    } else {
      var front, e := entries[..|entries| - 1], entries[|entries| - 1];
      WindowExactly(front, now, age, api, model);
      var w := WindowOf(front, now, age, api);
      CountsWithin(e, now, age);
      TallyStep(w.totals, entries, now, age, api, All);
      TallyStep(Get(w.models, model), entries, now, age, api, PricedModel(api, model));
      SumsStep(entries, now, age, Requests, Priced(api));
    }
  }

  lemma NoSums(now: int, age: int, api: bool)
    ensures Sums([], now, age, Requests, Priced(api)) == 0.0 && Sums([], now, age, Requests, All) == 0.0
  {
  }

  /** Each row, figure by figure, is its user's use of its model, and the request count is that of all entries. */
  lemma {:induction false} RowsExactly(entries: seq<Entry>, now: int, age: int, user: string, model: string)
    ensures var r := RowsOf(entries, now, age);
            && r.requests as real == Sums(entries, now, age, Requests, All)
            && TallyIs(Get(r.rows, Key(user, model)), entries, now, age, false, UsedBy(user, model))
  {
    hide TallyIs, Within, Counts, One, Sums;
    if entries == [] {
      TallyNothing(now, age, false, UsedBy(user, model));
      NoSums(now, age, false);
    } else {
      var front, e := entries[..|entries| - 1], entries[|entries| - 1];
      RowsExactly(front, now, age, user, model);
      CountsWithin(e, now, age);
      TallyStep(Get(RowsOf(front, now, age).rows, Key(user, model)), entries, now, age, false, UsedBy(user, model));
      SumsStep(entries, now, age, Requests, All);
    }
  }
}
