/** Cost estimates (pricing.go), in exact arithmetic. */
module Pricing {
  import opened Base

  const LONG_CONTEXT_TOKENS := 272_000

  /** USD per million tokens; threshold 0 means no long-context rate. */
  datatype Price = Price(input: real, cached: real, cacheWrite: real, output: real,
                         threshold: int, inputFactor: real, outputFactor: real)

  datatype Tokens = Tokens(input: Option<int>, output: Option<int>, cached: Option<int>, cacheWrite: Option<int>)

  function Count(n: Option<int>): real {
    if n.Some? then n.value as real else 0.0
  }

  function Min(x: real, y: real): real {
    if x < y then x else y
  }

  /** How the input divides: plain, cached and cache-write tokens. */
  datatype Split = Split(plain: real, cached: real, cacheWrite: real)

  function SplitOf(input: real, cached: real, cacheWrite: real): Split {
    var c := Min(cached, input);
    var w := Min(cacheWrite, input - c);
    Split(input - c - w, c, w)
  }

  predicate IsLong(p: Price, input: Option<int>) {
    input.Some? && p.threshold > 0 && input.value > p.threshold
  }

  /** Multiplication, named so that proofs can treat products as wholes. */
  function Times(x: real, y: real): real {
    x * y
  }

  function InputCost(p: Price, s: Split): real {
    Times(s.plain, p.input) + Times(s.cached, p.cached) + Times(s.cacheWrite, p.cacheWrite)
  }

  function OutputCost(p: Price, u: Tokens): real {
    Times(Count(u.output), p.output)
  }

  function FactorIn(p: Price, u: Tokens): real {
    if IsLong(p, u.input) then p.inputFactor else 1.0
  }

  function FactorOut(p: Price, u: Tokens): real {
    if IsLong(p, u.input) then p.outputFactor else 1.0
  }

  function TokensSplit(u: Tokens): Split {
    SplitOf(Count(u.input), Count(u.cached), Count(u.cacheWrite))
  }

  /** Input and output halves, each with its long-context factor, per million, times the tier's factor. */
  function Total(inputCost: real, fi: real, outputCost: real, fo: real, factor: real): real {
    Times((Times(inputCost, fi) + Times(outputCost, fo)) / 1_000_000.0, factor)
  }

  function Cost(p: Price, factor: real, u: Tokens): real {
    Total(InputCost(p, TokensSplit(u)), FactorIn(p, u), OutputCost(p, u), FactorOut(p, u), factor)
  }

  function Estimate(p: Price, factor: real, u: Tokens): Option<real> {
    if u.input.None? && u.output.None? then None else Some(Cost(p, factor, u))
  }

  /** estimatePricedUsage, clamping its local variables step by step. */
  method EstimatePricedUsage(p: Price, factor: real, u: Tokens) returns (r: Option<real>)
    ensures r == Estimate(p, factor, u)
  {
    hide Times, Total, InputCost;
    if u.input.None? && u.output.None? { return None; }
    var input, output, cached, cacheWrite := 0.0, 0.0, 0.0, 0.0;
    if u.input.Some? { input := u.input.value as real; }
    if u.output.Some? { output := u.output.value as real; }
    if u.cached.Some? { cached := u.cached.value as real; }
    if u.cacheWrite.Some? { cacheWrite := u.cacheWrite.value as real; }
    if cached > input { cached := input; }
    if cacheWrite > input - cached { cacheWrite := input - cached; }
    var inputFactor, outputFactor := 1.0, 1.0;
    if u.input.Some? && p.threshold > 0 && u.input.value > p.threshold {
      inputFactor, outputFactor := p.inputFactor, p.outputFactor;
    }
    var split := Split(input - cached - cacheWrite, cached, cacheWrite);
    assert split == TokensSplit(u) && output == Count(u.output);
    assert inputFactor == FactorIn(p, u) && outputFactor == FactorOut(p, u);
    r := Some(Priced(p, split, inputFactor, output, outputFactor, factor));
  }

  /** The closing arithmetic of estimatePricedUsage. */
  function Priced(p: Price, s: Split, fi: real, output: real, fo: real, factor: real): real {
    Total(InputCost(p, s), fi, Times(output, p.output), fo, factor)
  }

  // ----- splits and monotonicity -----

  predicate NonNegative(u: Tokens) {
    Count(u.input) >= 0.0 && Count(u.output) >= 0.0 && Count(u.cached) >= 0.0 && Count(u.cacheWrite) >= 0.0
  }

  predicate FairPrice(p: Price) {
    p.input >= 0.0 && p.cached >= 0.0 && p.cacheWrite >= 0.0 && p.output >= 0.0 &&
    (p.threshold > 0 ==> p.inputFactor >= 1.0 && p.outputFactor >= 1.0)
  }

  /** The parts are nonnegative, add up to the input, and none shrinks as the input grows. */
  lemma SplitConserves(input: real, more: real, cached: real, cacheWrite: real)
    requires 0.0 <= input <= more && cached >= 0.0 && cacheWrite >= 0.0
    ensures var s := SplitOf(input, cached, cacheWrite);
            s.plain >= 0.0 && s.cached >= 0.0 && s.cacheWrite >= 0.0 && s.plain + s.cached + s.cacheWrite == input &&
            s.cached <= cached && s.cacheWrite <= cacheWrite
    ensures var s, t := SplitOf(input, cached, cacheWrite), SplitOf(more, cached, cacheWrite);
            s.plain <= t.plain && s.cached <= t.cached && s.cacheWrite <= t.cacheWrite
  {
  }

  lemma Product(a: real, b: real, x: real, y: real)
    requires 0.0 <= a <= b && 0.0 <= x <= y
    ensures 0.0 <= Times(a, x) <= Times(b, y)
  {
  }

  lemma InputCostGrows(p: Price, s: Split, q: Price, t: Split)
    requires 0.0 <= s.plain <= t.plain && 0.0 <= s.cached <= t.cached && 0.0 <= s.cacheWrite <= t.cacheWrite
    requires 0.0 <= p.input <= q.input && 0.0 <= p.cached <= q.cached && 0.0 <= p.cacheWrite <= q.cacheWrite
    ensures 0.0 <= InputCost(p, s) <= InputCost(q, t)
  {
  }

  lemma TotalGrows(a: real, b: real, f: real, g: real, c: real, d: real, h: real, k: real, factor: real)
    requires 0.0 <= a <= b && 0.0 <= f <= g && 0.0 <= c <= d && 0.0 <= h <= k && 0.0 <= factor
    ensures 0.0 <= Total(a, f, c, h, factor) <= Total(b, g, d, k, factor)
  {
    hide Times;
    Product(a, b, f, g);
    Product(c, d, h, k);
    var x := (Times(a, f) + Times(c, h)) / 1_000_000.0;
    var y := (Times(b, g) + Times(d, k)) / 1_000_000.0;
    Product(x, y, factor, factor);
  }

  /** More input or more output, over the threshold or not, never costs less than nothing or than before. */
  lemma CostGrows(p: Price, factor: real, u: Tokens, v: Tokens)
    requires FairPrice(p) && factor >= 0.0 && NonNegative(u) && NonNegative(v)
    requires u.cached == v.cached && u.cacheWrite == v.cacheWrite
    requires u.input == v.input || (u.input.Some? && v.input.Some? && u.input.value <= v.input.value)
    requires Count(u.output) <= Count(v.output)
    ensures 0.0 <= Cost(p, factor, u) <= Cost(p, factor, v)
  {
    hide InputCost, Total, Times, SplitOf;
    var s, t := TokensSplit(u), TokensSplit(v);
    SplitConserves(Count(u.input), Count(v.input), Count(u.cached), Count(u.cacheWrite));
    InputCostGrows(p, s, p, t);
    Product(Count(u.output), Count(v.output), p.output, p.output);
    TotalGrows(InputCost(p, s), InputCost(p, t), FactorIn(p, u), FactorIn(p, v),
      OutputCost(p, u), OutputCost(p, v), FactorOut(p, u), FactorOut(p, v), factor);
  }

  // ----- the bill, token by token -----

  /** What input token i costs: cached tokens come first, then those written to the cache. */
  function Rate(p: Price, cached: nat, cacheWrite: nat, i: nat): real {
    if i < cached then p.cached else if i < cached + cacheWrite then p.cacheWrite else p.input
  }

  function Bill(p: Price, cached: nat, cacheWrite: nat, n: nat): real {
    if n == 0 then 0.0 else Bill(p, cached, cacheWrite, n - 1) + Rate(p, cached, cacheWrite, n - 1)
  }

  lemma TimesNext(x: real, y: real)
    ensures Times(x + 1.0, y) == Times(x, y) + y
  {
  }

  lemma SplitNext(cached: nat, cacheWrite: nat, n: nat)
    ensures var s := SplitOf(n as real, cached as real, cacheWrite as real);
            SplitOf((n + 1) as real, cached as real, cacheWrite as real) ==
            if n < cached then s.(cached := s.cached + 1.0)
            else if n < cached + cacheWrite then s.(cacheWrite := s.cacheWrite + 1.0)
            else s.(plain := s.plain + 1.0)
  {
  }

  /** The clamped split prices the input exactly as a bill that walks its tokens one by one. */
  lemma {:induction false} SplitIsBill(p: Price, cached: nat, cacheWrite: nat, n: nat)
    ensures InputCost(p, SplitOf(n as real, cached as real, cacheWrite as real)) == Bill(p, cached, cacheWrite, n)
  {
    hide Times, SplitOf;
    if n == 0 {
      SplitNothing(cached, cacheWrite);
      Unit(p.input);
      Unit(p.cached);
      Unit(p.cacheWrite);
    } else {
      SplitIsBill(p, cached, cacheWrite, n - 1);
      SplitNext(cached, cacheWrite, n - 1);
      var s := SplitOf((n - 1) as real, cached as real, cacheWrite as real);
      TimesNext(s.plain, p.input);
      TimesNext(s.cached, p.cached);
      TimesNext(s.cacheWrite, p.cacheWrite);
    }
  }

  lemma SplitNothing(cached: nat, cacheWrite: nat)
    ensures SplitOf(0.0, cached as real, cacheWrite as real) == Split(0.0, 0.0, 0.0)
  {
  }

  // ----- the whole bill -----

  /** n times x, by adding. */
  function Repeat(n: nat, x: real): real {
    if n == 0 then 0.0 else Repeat(n - 1, x) + x
  }

  lemma {:induction false} RepeatTimes(n: nat, x: real)
    ensures Repeat(n, x) == Times(n as real, x)
  {
    if n == 0 {
      Unit(x);
    } else {
      RepeatTimes(n - 1, x);
      TimesNext((n - 1) as real, x);
    }
  }

  function Known(n: Option<int>): int {
    if n.Some? then n.value else 0
  }

  /** The bill in USD per million requests: input token by token, output token by token, then the tier, by adding. */
  ghost predicate BillIs(p: Price, tier: nat, u: Tokens, usd: real)
    requires Known(u.input) >= 0 && Known(u.output) >= 0 && Known(u.cached) >= 0 && Known(u.cacheWrite) >= 0
  {
    var long := p.threshold > 0 && Known(u.input) > p.threshold;
    var bill := Bill(p, Known(u.cached), Known(u.cacheWrite), Known(u.input));
    var output := Repeat(Known(u.output), p.output);
    usd * 1_000_000.0 ==
      Repeat(tier, if long then Times(bill, p.inputFactor) + Times(output, p.outputFactor) else bill + output)
  }

  lemma Exchange(x: real, n: real)
    ensures Times(x / 1_000_000.0, n) * 1_000_000.0 == Times(n, x)
  {
  }

  lemma TotalIs(a: real, fi: real, b: real, fo: real, tier: nat)
    ensures Total(a, fi, b, fo, tier as real) * 1_000_000.0 == Repeat(tier, Times(a, fi) + Times(b, fo))
  {
    hide Times;
    RepeatTimes(tier, Times(a, fi) + Times(b, fo));
    Exchange(Times(a, fi) + Times(b, fo), tier as real);
  }

  lemma OneTimes(x: real, y: real)
    ensures x * 1.0 + y * 1.0 == x + y
  {
  }

  lemma KnownCounts(u: Tokens)
    ensures Count(u.input) == Known(u.input) as real && Count(u.output) == Known(u.output) as real
    ensures Count(u.cached) == Known(u.cached) as real && Count(u.cacheWrite) == Known(u.cacheWrite) as real
  {
  }

  /** An estimate exists if input or output tokens are known, and is the bill. */
  lemma EstimateExactly(p: Price, tier: nat, u: Tokens)
    requires Known(u.input) >= 0 && Known(u.output) >= 0 && Known(u.cached) >= 0 && Known(u.cacheWrite) >= 0
    ensures var e := Estimate(p, tier as real, u);
            (e.None? <==> u.input.None? && u.output.None?) && (e.Some? ==> BillIs(p, tier, u, e.value))
  {
    hide Times, Total, InputCost, SplitOf, Bill, Repeat, FactorIn, FactorOut;
    var bill, output := Bill(p, Known(u.cached), Known(u.cacheWrite), Known(u.input)), Repeat(Known(u.output), p.output);
    KnownCounts(u);
    SplitIsBill(p, Known(u.cached), Known(u.cacheWrite), Known(u.input));
    RepeatTimes(Known(u.output), p.output);
    assert InputCost(p, TokensSplit(u)) == bill && OutputCost(p, u) == output;
    TotalIs(bill, FactorIn(p, u), output, FactorOut(p, u), tier);
    Factors(p, u, bill, output);
  }

  lemma Factors(p: Price, u: Tokens, bill: real, output: real)
    ensures Times(bill, FactorIn(p, u)) + Times(output, FactorOut(p, u)) ==
            if p.threshold > 0 && Known(u.input) > p.threshold then Times(bill, p.inputFactor) + Times(output, p.outputFactor)
            else bill + output
  {
    OneTimes(bill, output);
  }

  // ----- the API estimate -----

  predicate AllDigits(s: string) {
    forall i :: 0 <= i < |s| ==> '0' <= s[i] <= '9'
  }

  function BeforeDash(s: string): string {
    if s == "" || s[0] == '-' then "" else [s[0]] + BeforeDash(s[1..])
  }

  predicate IsGpt6(name: string) {
    name == "gpt-6" || "gpt-6-" <= name ||
    ("gpt-6." <= name && BeforeDash(name[6..]) != "" && AllDigits(BeforeDash(name[6..])))
  }

  predicate HasWriteRate(name: string) {
    IsGpt6(name) || name == "gpt-5.6" || "gpt-5.6-" <= name
  }

  /** The public API price behind a table row. */
  function ApiPrice(name: string, p: Price): Price {
    var q := if HasWriteRate(name) then p.(cacheWrite := p.input * 1.25) else p;
    if IsGpt6(name) then q.(threshold := LONG_CONTEXT_TOKENS, inputFactor := 2.0, outputFactor := 1.5) else q
  }

  /** A row of a loaded table: overrides set prices only, so long-context terms are standard or absent. */
  predicate TableRow(p: Price) {
    FairPrice(p) &&
    (p.threshold == 0 || (p.threshold == LONG_CONTEXT_TOKENS && p.inputFactor == 2.0 && p.outputFactor == 1.5))
  }

  lemma ApiCostsMore(name: string, p: Price, factor: real, u: Tokens)
    requires TableRow(p) && factor >= 0.0 && NonNegative(u)
    requires HasWriteRate(name) ==> p.cacheWrite <= p.input * 1.25
    ensures Cost(p, factor, u) <= Cost(ApiPrice(name, p), factor, u)
  {
    hide InputCost, Total, Times, SplitOf, HasWriteRate, IsGpt6;
    var q, s := ApiPrice(name, p), TokensSplit(u);
    SplitConserves(Count(u.input), Count(u.input), Count(u.cached), Count(u.cacheWrite));
    InputCostGrows(p, s, q, s);
    Product(Count(u.output), Count(u.output), p.output, p.output);
    TotalGrows(InputCost(p, s), InputCost(q, s), FactorIn(p, u), FactorIn(q, u),
      OutputCost(p, u), OutputCost(q, u), FactorOut(p, u), FactorOut(q, u), factor);
  }

  /** One token, written to the cache. */
  const ONE_WRITE := Tokens(Some(1), None, None, Some(1))

  lemma Unit(x: real)
    ensures Times(0.0, x) == 0.0 && Times(1.0, x) == x && Times(x, 1.0) == x
  {
  }

  lemma OneWriteCost(p: Price)
    requires p.threshold == 0 || p.threshold == LONG_CONTEXT_TOKENS
    ensures Cost(p, 1.0, ONE_WRITE) == p.cacheWrite / 1_000_000.0
  {
    OneWriteParts(p);
    hide Times, InputCost, OutputCost, TokensSplit, FactorIn, FactorOut;
    Unit(p.cacheWrite);
    Unit(1.0);
    Unit(p.cacheWrite / 1_000_000.0);
    assert Total(p.cacheWrite, 1.0, 0.0, 1.0, 1.0) == p.cacheWrite / 1_000_000.0;
  }

  lemma OneWriteParts(p: Price)
    requires p.threshold == 0 || p.threshold == LONG_CONTEXT_TOKENS
    ensures InputCost(p, TokensSplit(ONE_WRITE)) == p.cacheWrite && OutputCost(p, ONE_WRITE) == 0.0
    ensures FactorIn(p, ONE_WRITE) == 1.0 && FactorOut(p, ONE_WRITE) == 1.0
  {
  }

  /**
   For a row of any loaded table the API estimate is never below the Codex one exactly when
   the row's cache-write price is at most a quarter above its input price (or is not replaced).
   */
  lemma ApiNotBelowExactly(name: string, p: Price)
    requires TableRow(p)
    ensures (forall u :: NonNegative(u) ==> Cost(p, 1.0, u) <= Cost(ApiPrice(name, p), 1.0, u)) <==>
            (HasWriteRate(name) ==> p.cacheWrite <= p.input * 1.25)
  {
    hide Cost, HasWriteRate, IsGpt6;
    if HasWriteRate(name) ==> p.cacheWrite <= p.input * 1.25 {
      forall u | NonNegative(u) ensures Cost(p, 1.0, u) <= Cost(ApiPrice(name, p), 1.0, u) {
        ApiCostsMore(name, p, 1.0, u);
      }
    } else {
      assert NonNegative(ONE_WRITE);
      OneWriteCost(p);
      OneWriteCost(ApiPrice(name, p));
    }
  }

  // ----- the table -----

  function Row(input: real, cached: real, output: real): Price {
    Price(input, cached, input, output, 0, 0.0, 0.0)
  }

  function LongRow(input: real, cached: real, output: real): Price {
    Price(input, cached, input, output, LONG_CONTEXT_TOKENS, 2.0, 1.5)
  }

  type Table = map<string, Price>

  const DEFAULT: Table := map[
    "gpt-6-astra" := Row(10.00, 1.00, 50.00),
    "gpt-6-sol" := Row(2.00, 0.20, 10.00),
    "gpt-6.1-sol" := Row(2.00, 0.10, 10.00),
    "gpt-6.1-terra" := Row(1.00, 0.05, 5.00),
    "gpt-6-luna" := Row(0.10, 0.01, 0.50),
    "gpt-5.6" := LongRow(4.00, 0.40, 20.00),
    "gpt-5.6-sol" := LongRow(4.00, 0.40, 20.00),
    "gpt-5.6-terra" := LongRow(2.00, 0.20, 12.00),
    "gpt-5.6-luna" := LongRow(0.20, 0.02, 1.20),
    "gpt-5.5" := LongRow(5.00, 0.50, 30.00),
    "gpt-5.4" := LongRow(2.50, 0.25, 15.00),
    "gpt-5.4-mini" := Row(0.75, 0.075, 4.50),
    "gpt-5.3-codex" := Row(1.75, 0.175, 14.00)]

  function TrimLeft(s: string): string {
    if s != "" && IsSpace(s[0]) then TrimLeft(s[1..]) else s
  }

  function TrimRight(s: string): string {
    if s != "" && IsSpace(s[|s| - 1]) then TrimRight(s[..|s| - 1]) else s
  }

  function Normalize(model: string): string {
    TrimRight(TrimLeft(ToLower(model)))
  }

  function Digit(c: char): int {
    c as int - '0' as int
  }

  function DaysIn(year: int, month: int): int {
    if month == 2 then if year % 4 == 0 && (year % 100 != 0 || year % 400 == 0) then 29 else 28
    else if month == 4 || month == 6 || month == 9 || month == 11 then 30
    else 31
  }

  /** What time.Parse accepts for the layout 2006-01-02. */
  predicate IsDate(d: string) {
    |d| == 10 && d[4] == '-' && d[7] == '-' && AllDigits(d[..4]) && AllDigits(d[5..7]) && AllDigits(d[8..]) &&
    var year := Digit(d[0]) * 1000 + Digit(d[1]) * 100 + Digit(d[2]) * 10 + Digit(d[3]);
    var month, day := Digit(d[5]) * 10 + Digit(d[6]), Digit(d[8]) * 10 + Digit(d[9]);
    1 <= month <= 12 && 1 <= day <= DaysIn(year, month)
  }

  predicate IsDatedSnapshot(model: string, candidate: string) {
    candidate + "-" <= model && IsDate(model[|candidate| + 1..])
  }

  /** The one name a dated model can fall back to: itself without its date. */
  function Undated(model: string): string {
    if |model| > 11 then model[..|model| - 11] else ""
  }

  lemma SnapshotIsUndated(model: string, candidate: string)
    requires candidate != "" && IsDatedSnapshot(model, candidate)
    ensures candidate == Undated(model)
  {
  }

  /** The direct form of the lookup: exact, or the undated name. */
  function Resolve(table: Table, model: string): (name: Option<string>)
    ensures name.Some? ==> name.value in table
  {
    var m := Normalize(model);
    if m == "" then None
    else if m in table then Some(m)
    else
      var base := Undated(m);
      if base != "" && base in table && IsDatedSnapshot(m, base) then Some(base) else None
  }

  /** resolveModelPricing: a search for the longest match, in whatever order the map is iterated. */
  method ResolveModelPricing(table: Table, model: string) returns (name: Option<string>)
    ensures name == Resolve(table, model)
  {
    hide IsDatedSnapshot, Normalize, Undated;
    var m := Normalize(model);
    if m == "" { return None; }
    if m in table { return Some(m); }
    var best := "";
    var left := table.Keys;
    while left != {}
      invariant left <= table.Keys
      invariant best == "" || (best in table && best !in left && best == Undated(m) && IsDatedSnapshot(m, best))
      invariant best == "" ==> forall k :: k in table && k !in left && k != "" ==> !IsDatedSnapshot(m, k)
      decreases left
    {
      var candidate :| candidate in left;
      left := left - {candidate};
      if IsDatedSnapshot(m, candidate) && |candidate| > |best| {
        SnapshotIsUndated(m, candidate);
        best := candidate;
      }
    }
    return if best != "" then Some(best) else None;
  }

  // ----- names and dates -----

  lemma {:induction false} TrimLeftDrops(pad: string, s: string)
    requires IsBlankText(pad)
    ensures TrimLeft(pad + s) == TrimLeft(s)
  {
    if pad == "" {
      assert pad + s == s;
    } else {
      assert (pad + s)[1..] == pad[1..] + s;
      TrimLeftDrops(pad[1..], s);
    }
  }

  lemma {:induction false} TrimRightDrops(s: string, pad: string)
    requires IsBlankText(pad)
    ensures TrimRight(s + pad) == TrimRight(s)
    decreases |pad|
  {
    if pad == "" {
      assert s + pad == s;
    } else {
      assert (s + pad)[..|s + pad| - 1] == s + pad[..|pad| - 1];
      TrimRightDrops(s, pad[..|pad| - 1]);
    }
  }

  predicate IsBlankText(s: string) {
    forall i :: 0 <= i < |s| ==> IsSpace(s[i])
  }

  /** Text that neither begins nor ends with a space is not trimmed. */
  lemma TrimKeeps(s: string)
    requires s != "" ==> !IsSpace(s[0]) && !IsSpace(s[|s| - 1])
    ensures TrimRight(TrimLeft(s)) == s
  {
  }

  lemma LowerBlank(pad: string)
    requires IsBlankText(pad)
    ensures ToLower(pad) == pad
  {
  }

  lemma LowerSum(a: string, b: string)
    ensures ToLower(a + b) == ToLower(a) + ToLower(b)
  {
  }

  lemma TrimRightOfLeft(s: string, pad: string)
    requires IsBlankText(pad) && (s != "" ==> !IsSpace(s[0]) && !IsSpace(s[|s| - 1]))
    ensures TrimRight(TrimLeft(s + pad)) == s
  {
    if s == "" {
      TrimLeftDrops(pad, "");
      assert s + pad == pad + "";
    } else {
      assert (s + pad)[0] == s[0];
      TrimRightDrops(s, pad);
      TrimKeeps(s);
    }
  }

  /** A name is looked up in lower case and without the blanks around it, and so is a tier. */
  lemma NormalizeExactly(left: string, name: string, right: string)
    requires IsBlankText(left) && IsBlankText(right)
    requires name != "" ==> !IsSpace(ToLower(name)[0]) && !IsSpace(ToLower(name)[|name| - 1])
    ensures Normalize(left + name + right) == ToLower(name)
  {
    hide TrimLeft, TrimRight, ToLower;
    LowerSum(left + name, right);
    LowerSum(left, name);
    LowerBlank(left);
    LowerBlank(right);
    assert left + ToLower(name) + right == left + (ToLower(name) + right);
    TrimLeftDrops(left, ToLower(name) + right);
    TrimRightOfLeft(ToLower(name), right);
  }

  /** "2006-01-02" for a year, month and day. */
  function FormatDate(year: nat, month: nat, day: nat): string
    requires year < 10000 && month < 100 && day < 100
  {
    var d := "0123456789";
    [d[year / 1000], d[year / 100 % 10], d[year / 10 % 10], d[year % 10], '-',
     d[month / 10], d[month % 10], '-', d[day / 10], d[day % 10]]
  }

  /** The days before a month, as a calendar lists them. */
  function DaysBefore(month: nat): nat
    requires 1 <= month <= 13
  {
    [0, 31, 59, 90, 120, 151, 181, 212, 243, 273, 304, 334, 365][month - 1]
  }

  /** A day of the calendar: every fourth year has a 29th of February, but of the full centuries only every fourth. */
  predicate CalendarDay(year: nat, month: nat, day: nat) {
    1 <= month <= 12 && 1 <= day &&
    (day <= DaysBefore(month + 1) - DaysBefore(month) ||
     (month == 2 && day == 29 && if year % 100 == 0 then year % 400 == 0 else year % 4 == 0))
  }

  lemma DigitBack(c: char)
    requires '0' <= c <= '9'
    ensures 0 <= Digit(c) < 10 && "0123456789"[Digit(c)] == c
  {
  }

  lemma DaysInMonth(year: int, month: int)
    requires 1 <= month <= 12 && year >= 0
    ensures forall day: nat :: 1 <= day <= DaysIn(year, month) <==> CalendarDay(year, month, day)
  {
  }

  /** What counts as a date is exactly a day of the calendar, written out. */
  lemma DateExactly(d: string)
    ensures IsDate(d) <==>
            exists year: nat, month: nat, day: nat ::
              year < 10000 && month < 100 && day < 100 && CalendarDay(year, month, day) && d == FormatDate(year, month, day)
  {
    if IsDate(d) { DateIsWritten(d); }
    forall year: nat, month: nat, day: nat |
      year < 10000 && month < 100 && day < 100 && CalendarDay(year, month, day) && d == FormatDate(year, month, day)
      ensures IsDate(d)
    {
      WrittenIsDate(year, month, day);
    }
  }

  /** Four digits make a number and back. */
  lemma FourDigits(a: nat, b: nat, c: nat, e: nat)
    requires a < 10 && b < 10 && c < 10 && e < 10
    ensures var n := a * 1000 + b * 100 + c * 10 + e;
            n < 10000 && n / 1000 == a && n / 100 % 10 == b && n / 10 % 10 == c && n % 10 == e
  {
    var n := a * 1000 + b * 100 + c * 10 + e;
    assert n / 10 == a * 100 + b * 10 + c && n / 100 == a * 10 + b;
  }

  lemma FourDigitsBack(n: nat)
    requires n < 10000
    ensures n / 1000 < 10 && n == n / 1000 * 1000 + n / 100 % 10 * 100 + n / 10 % 10 * 10 + n % 10
  {
    var tens, hundreds := n / 10, n / 100;
    assert n == 10 * tens + n % 10 && tens == 10 * (tens / 10) + tens % 10;
    assert tens / 10 == hundreds && hundreds == 10 * (hundreds / 10) + hundreds % 10 && hundreds / 10 == n / 1000;
  }

  /** The digits of a text that has the shape of a date. */
  predicate Shaped(d: string) {
    |d| == 10 && d[4] == '-' && d[7] == '-' &&
    forall i :: 0 <= i < 10 && i != 4 && i != 7 ==> '0' <= d[i] <= '9'
  }

  function Year(d: string): int
    requires |d| == 10
  {
    Digit(d[0]) * 1000 + Digit(d[1]) * 100 + Digit(d[2]) * 10 + Digit(d[3])
  }

  lemma DateShape(d: string)
    ensures IsDate(d) <==>
            Shaped(d) && 1 <= Digit(d[5]) * 10 + Digit(d[6]) <= 12 &&
            1 <= Digit(d[8]) * 10 + Digit(d[9]) <= DaysIn(Year(d), Digit(d[5]) * 10 + Digit(d[6]))
  {
    hide DaysIn, Digit;
    if |d| == 10 {
      assert forall i :: 0 <= i < 4 ==> d[..4][i] == d[i];
      assert forall i :: 5 <= i < 7 ==> d[5..7][i - 5] == d[i];
      assert forall i :: 8 <= i < 10 ==> d[8..][i - 8] == d[i];
    }
  }

  lemma DateIsWritten(d: string)
    requires IsDate(d)
    ensures exists year: nat, month: nat, day: nat ::
              year < 10000 && month < 100 && day < 100 && CalendarDay(year, month, day) && d == FormatDate(year, month, day)
  {
    hide Digit, IsDate, DaysIn, CalendarDay, FormatDate;
    DateShape(d);
    ShapeIsWritten(d);
    var year, month, day := Year(d), Digit(d[5]) * 10 + Digit(d[6]), Digit(d[8]) * 10 + Digit(d[9]);
    DaysInMonth(year, month);
  }

  /** A date written from its digits. */
  lemma FormatDigits(a: nat, b: nat, c: nat, e: nat, m: nat, n: nat, x: nat, y: nat)
    requires a < 10 && b < 10 && c < 10 && e < 10 && m < 10 && n < 10 && x < 10 && y < 10
    ensures var d := "0123456789";
            a * 1000 + b * 100 + c * 10 + e < 10000 &&
            FormatDate(a * 1000 + b * 100 + c * 10 + e, m * 10 + n, x * 10 + y) ==
            [d[a], d[b], d[c], d[e], '-', d[m], d[n], '-', d[x], d[y]]
  {
    FourDigits(a, b, c, e);
    TwoDigits(m, n);
    TwoDigits(x, y);
  }

  lemma ShapeIsWritten(d: string)
    requires Shaped(d)
    ensures var month, day := Digit(d[5]) * 10 + Digit(d[6]), Digit(d[8]) * 10 + Digit(d[9]);
            0 <= Year(d) < 10000 && 0 <= month < 100 && 0 <= day < 100 && d == FormatDate(Year(d), month, day)
  {
    hide Digit, FormatDate;
    DigitBack(d[0]);
    DigitBack(d[1]);
    DigitBack(d[2]);
    DigitBack(d[3]);
    DigitBack(d[5]);
    DigitBack(d[6]);
    DigitBack(d[8]);
    DigitBack(d[9]);
    FormatDigits(Digit(d[0]), Digit(d[1]), Digit(d[2]), Digit(d[3]), Digit(d[5]), Digit(d[6]), Digit(d[8]), Digit(d[9]));
  }

  lemma TwoDigits(a: nat, b: nat)
    requires a < 10 && b < 10
    ensures (a * 10 + b) / 10 == a && (a * 10 + b) % 10 == b
  {
  }

  lemma DigitOf(n: nat)
    requires n < 10
    ensures Digit("0123456789"[n]) == n && '0' <= "0123456789"[n] <= '9'
  {
  }

  lemma WrittenIsDate(year: nat, month: nat, day: nat)
    requires year < 10000 && month < 100 && day < 100 && CalendarDay(year, month, day)
    ensures IsDate(FormatDate(year, month, day))
  {
    hide Digit, IsDate, DaysIn, CalendarDay;
    var d := FormatDate(year, month, day);
    DateShape(d);
    FourDigitsBack(year);
    FourDigitsBack(month);
    FourDigitsBack(day);
    DigitOf(year / 1000);
    DigitOf(year / 100 % 10);
    DigitOf(year / 10 % 10);
    DigitOf(year % 10);
    DigitOf(month / 10);
    DigitOf(month % 10);
    DigitOf(day / 10);
    DigitOf(day % 10);
    MonthOf(year, month, day);
    DaysInMonth(year, month);
  }

  lemma MonthOf(year: nat, month: nat, day: nat)
    requires CalendarDay(year, month, day)
    ensures 1 <= month <= 12 && 1 <= day
  {
  }

  /** How often a tier is paid. */
  function TierCount(tier: string): nat {
    var t := Normalize(tier);
    if t == "priority" || t == "fast" then 2 else if t == "ultrafast" then 6 else 1
  }

  function TierFactor(tier: string): real {
    TierCount(tier) as real
  }

  function CodexEstimate(table: Table, model: string, tier: string, u: Tokens): Option<real> {
    var name := Resolve(table, model);
    if name.None? then None else Estimate(table[name.value], TierFactor(tier), u)
  }

  function ApiEstimate(table: Table, model: string, tier: string, u: Tokens): Option<real> {
    var name := Resolve(table, model);
    if name.None? then None else Estimate(ApiPrice(name.value, table[name.value]), TierFactor(tier), u)
  }

  lemma DefaultRows()
    ensures forall k :: k in DEFAULT ==> TableRow(DEFAULT[k]) && DEFAULT[k].cacheWrite <= DEFAULT[k].input * 1.25
  {
  }

  /** With the default table, every model, tier and usage: both estimates or neither, API not below. */
  lemma DefaultApiNotBelow(model: string, tier: string, u: Tokens)
    requires NonNegative(u)
    ensures var codex, api := CodexEstimate(DEFAULT, model, tier, u), ApiEstimate(DEFAULT, model, tier, u);
            (codex.Some? <==> api.Some?) && (codex.Some? ==> 0.0 <= codex.value <= api.value)
  {
    hide Normalize, IsDatedSnapshot, Undated, Cost, ApiPrice;
    var name := Resolve(DEFAULT, model);
    if name.Some? {
      DefaultRows();
      var p := DEFAULT[name.value];
      ApiCostsMore(name.value, p, TierFactor(tier), u);
      CostGrows(p, TierFactor(tier), u, u);
    }
  }

  // ----- tiers and families -----

  /** What a tier costs: twice for the two names of Fast, six times for Ultrafast, once for any other. */
  lemma TierExactly(tier: string)
    ensures var t := Normalize(tier);
            (TierFactor(tier) == 2.0 <==> t in {"priority", "fast"}) && (TierFactor(tier) == 6.0 <==> t == "ultrafast") &&
            TierFactor(tier) in {1.0, 2.0, 6.0}
  {
  }

  /** The row a name resolves to: itself, or failing that the row whose name with a date behind it the name is. */
  lemma ResolveExactly(table: Table, model: string, row: string)
    ensures Resolve(table, model) == Some(row) <==>
            var name := Normalize(model);
            name != "" && row in table &&
            (name == row ||
             (name !in table && row != "" && row + "-" <= name && IsDate(name[|row| + 1..])))
  {
    hide Normalize, IsDate, Undated;
    var name := Normalize(model);
    if row != "" && IsDatedSnapshot(name, row) { SnapshotIsUndated(name, row); }
  }

  /** Both estimates of a request: there is one if the model resolves and tokens are known, and it is the bill at its price. */
  lemma EstimatesExactly(table: Table, model: string, tier: string, u: Tokens)
    requires Known(u.input) >= 0 && Known(u.output) >= 0 && Known(u.cached) >= 0 && Known(u.cacheWrite) >= 0
    ensures var name := Resolve(table, model);
            var codex, api := CodexEstimate(table, model, tier, u), ApiEstimate(table, model, tier, u);
            && (codex.Some? <==> name.Some? && (u.input.Some? || u.output.Some?)) && (api.Some? <==> codex.Some?)
            && (codex.Some? ==> BillIs(table[name.value], TierCount(tier), u, codex.value) &&
                                BillIs(ApiPrice(name.value, table[name.value]), TierCount(tier), u, api.value))
  {
    hide Resolve, Normalize, Estimate, BillIs, ApiPrice;
    var name := Resolve(table, model);
    if name.Some? {
      EstimateExactly(table[name.value], TierCount(tier), u);
      EstimateExactly(ApiPrice(name.value, table[name.value]), TierCount(tier), u);
    }
  }

  const GPT6 := {"gpt-6-astra", "gpt-6-sol", "gpt-6.1-sol", "gpt-6.1-terra", "gpt-6-luna"}

  /**
   What the API price of a default row changes: cache writes at five quarters of the input price
   for GPT-6 and GPT-5.6, and the long-context terms for GPT-6; nothing else for any row.
   */
  lemma ApiPriceExactly(name: string)
    requires name in DEFAULT
    ensures var p, q := DEFAULT[name], ApiPrice(name, DEFAULT[name]);
            && q.input == p.input && q.cached == p.cached && q.output == p.output
            && q.cacheWrite == (if name in GPT6 || name in {"gpt-5.6", "gpt-5.6-sol", "gpt-5.6-terra", "gpt-5.6-luna"}
                                then p.input + p.input / 4.0 else p.cacheWrite)
            && (if name in GPT6 then q.threshold == 272_000 && q.inputFactor == 2.0 && q.outputFactor == 1.5
                else q.threshold == p.threshold && q.inputFactor == p.inputFactor && q.outputFactor == p.outputFactor)
  {
    hide BeforeDash, AllDigits;
    Family(name);
  }

  /** The families of the default rows. */
  lemma Family(name: string)
    requires name in DEFAULT
    ensures IsGpt6(name) <==> name in GPT6
    ensures HasWriteRate(name) <==> name in GPT6 || name in {"gpt-5.6", "gpt-5.6-sol", "gpt-5.6-terra", "gpt-5.6-luna"}
  {
    hide BeforeDash;
    PointRelease("1-sol", "1");
    PointRelease("1-terra", "1");
    assert "gpt-6.1-sol"[6..] == "1-sol" && "gpt-6.1-terra"[6..] == "1-terra";
    if name[4] == '6' {
      assert name in GPT6 && IsGpt6(name);
    } else {
      NotGpt6(name);
      if |name| > 6 && name[6] == '6' {
        assert HasWriteRate(name);
      } else {
        NotGpt56(name);
      }
    }
  }

  lemma NotGpt6(name: string)
    requires |name| > 4 && name[4] != '6'
    ensures !IsGpt6(name)
  {
    assert "gpt-6"[4] == '6' && "gpt-6-"[4] == '6' && "gpt-6."[4] == '6';
  }

  lemma NotGpt56(name: string)
    requires |name| > 6 && name[4] != '6' && name[6] != '6'
    ensures !HasWriteRate(name)
  {
    NotGpt6(name);
    assert "gpt-5.6"[6] == '6' && "gpt-5.6-"[6] == '6';
  }

  /** The minor version of a point release stands before the first dash. */
  lemma PointRelease(rest: string, minor: string)
    requires |minor| < |rest| && minor == rest[..|minor|] && rest[|minor|] == '-' && '-' !in minor
    ensures BeforeDash(rest) == minor
  {
    if minor != "" {
      assert rest[1..][..|minor| - 1] == minor[1..];
      PointRelease(rest[1..], minor[1..]);
      assert minor == [rest[0]] + minor[1..];
    }
  }
}
