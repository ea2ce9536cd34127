/**
 How long a rate-limited account is benched (accounts.go, deriveCooldown). Times and
 durations are nanoseconds; the zero time is 0.
 */
module Cooldown {
  import opened Base

  const MIN_COOLDOWN := 30 * SECOND
  const MAX_COOLDOWN := 8 * 24 * 3600 * SECOND
  const DEFAULT_SHORT := 60 * SECOND
  const DEFAULT_USAGE := 5 * 3600 * SECOND
  const DEFAULT_WEEKLY := 7 * 24 * 3600 * SECOND
  const UNIX_EPOCH := 62_135_596_800 * SECOND

  /**
   A float as numericReset sees it. `whole` is what the conversion to an integer yields,
   whatever that is for NaN (which fails both comparisons, so it is Small) or an overflow.
   */
  datatype Number = NotPositive | Small(whole: int) | Large(whole: int)

  /** A trimmed header or string value, by the first of the parsers that accepts it. */
  datatype Text = Empty | Numeric(number: Number) | Date(time: int) | Unparsable

  datatype Json =
    | Object(fields: seq<Field>)
    | Array(items: seq<Json>)
    | JsonNumber(number: Number)
    | JsonText(text: Text)
    | OtherJson

  datatype Field = Field(key: string, value: Json)

  datatype Wording = SaysWeek | SaysUsage | SaysNeither

  function ClampCooldown(d: int): (r: nat)
    ensures MIN_COOLDOWN <= r <= MAX_COOLDOWN
  {
    if d < MIN_COOLDOWN then MIN_COOLDOWN else if d > MAX_COOLDOWN then MAX_COOLDOWN else d
  }

  function ClampUntil(now: nat, t: int): nat {
    now + ClampCooldown(t - now)
  }

  function NumericReset(n: Number, now: nat): Option<nat> {
    match n
    case NotPositive => None
    case Large(whole) => Some(ClampUntil(now, UNIX_EPOCH + whole * SECOND))
    case Small(whole) => Some(now + ClampCooldown(whole * SECOND))
  }

  function ParseReset(v: Text, now: nat): Option<nat> {
    match v
    case Numeric(n) => NumericReset(n, now)
    case Date(t) => Some(ClampUntil(now, t))
    case _ => None
  }

  function CoerceReset(v: Json, now: nat): Option<nat> {
    match v
    case JsonNumber(n) => NumericReset(n, now)
    case JsonText(t) => ParseReset(t, now)
    case _ => None
  }

  predicate Contains(s: string, part: string) {
    part <= s || (s != [] && Contains(s[1..], part))
  }

  predicate IsResetKey(key: string) {
    var k := ToLower(key);
    Contains(k, "reset") || Contains(k, "retry") || Contains(k, "seconds_until") ||
    Contains(k, "cooldown") || Contains(k, "resets_in") || Contains(k, "resets_at")
  }

  // ----- the walk over a 429 body -----

  function Earlier(best: nat, until: Option<nat>): nat {
    if until.Some? && (best == 0 || until.value < best) then until.value else best
  }

  /** The recursive walk; `best` is the earliest reset so far, 0 (the zero time) if none. */
  function Walk(best: nat, v: Json, now: nat): nat
    decreases v, 0
  {
    match v
    case Object(fields) => WalkFields(best, v, 0, now)
    case Array(items) => WalkItems(best, v, 0, now)
    case _ => best
  }

  function WalkFields(best: nat, v: Json, i: nat, now: nat): nat
    requires v.Object? && i <= |v.fields|
    decreases v, 0, |v.fields| - i
  {
    if i == |v.fields| then best
    else
      var f := v.fields[i];
      var here := if IsResetKey(f.key) then Earlier(best, CoerceReset(f.value, now)) else best;
      WalkFields(Walk(here, f.value, now), v, i + 1, now)
  }

  function WalkItems(best: nat, v: Json, i: nat, now: nat): nat
    requires v.Array? && i <= |v.items|
    decreases v, 0, |v.items| - i
  {
    if i == |v.items| then best
    else WalkItems(Walk(best, v.items[i], now), v, i + 1, now)
  }

  function OwnReset(f: Field, now: nat): set<nat> {
    if IsResetKey(f.key) && CoerceReset(f.value, now).Some? then {CoerceReset(f.value, now).value} else {}
  }

  /** Every reset time mentioned anywhere in the body: a set, so no order is involved. */
  ghost function Resets(v: Json, now: nat): set<nat> {
    match v
    case Object(fields) =>
      (set f, t | f in fields && t in OwnReset(f, now) :: t) +
      (set f, t | f in fields && t in Resets(f.value, now) :: t)
    case Array(items) => set x, t | x in items && t in Resets(x, now) :: t
    case _ => {}
  }

  /** b is the earliest of the times in s and of a; 0 stands for no time at all. */
  ghost predicate IsEarliest(b: nat, a: nat, s: set<nat>) {
    if a == 0 && s == {} then b == 0
    else (b == a != 0 || b in s) && b != 0 && (a != 0 ==> b <= a) && forall t :: t in s ==> b <= t
  }

  lemma ResetBounds(v: Json, now: nat)
    ensures forall u :: CoerceReset(v, now) == Some(u) ==> now + MIN_COOLDOWN <= u <= now + MAX_COOLDOWN
  {
  }

  lemma EarliestTrans(a: nat, b: nat, c: nat, s: set<nat>, t: set<nat>)
    requires 0 !in s && 0 !in t && IsEarliest(b, a, s) && IsEarliest(c, b, t)
    ensures IsEarliest(c, a, s + t)
  {
  }

  /** The times from fields i on, taken in any order. */
  ghost function FieldResets(fields: seq<Field>, now: nat): set<nat> {
    (set f, t | f in fields && t in OwnReset(f, now) :: t) +
    (set f, t | f in fields && t in Resets(f.value, now) :: t)
  }

  ghost function ItemResets(items: seq<Json>, now: nat): set<nat> {
    set x, t | x in items && t in Resets(x, now) :: t
  }

  lemma OneField(fields: seq<Field>, i: nat, now: nat)
    requires i < |fields|
    ensures FieldResets(fields[i..], now) ==
            OwnReset(fields[i], now) + Resets(fields[i].value, now) + FieldResets(fields[i + 1..], now)
  {
  }

  lemma OneItem(items: seq<Json>, i: nat, now: nat)
    requires i < |items|
    ensures ItemResets(items[i..], now) == Resets(items[i], now) + ItemResets(items[i + 1..], now)
  {
  }

  /** All reset times lie within the clamps, so none is the zero time. */
  lemma {:induction false} ResetsBounded(v: Json, now: nat)
    ensures forall t :: t in Resets(v, now) ==> now + MIN_COOLDOWN <= t <= now + MAX_COOLDOWN
    decreases v
  {
    match v
    case Object(fields) =>
      forall f | f in fields
        ensures forall t :: t in OwnReset(f, now) || t in Resets(f.value, now) ==>
                  now + MIN_COOLDOWN <= t <= now + MAX_COOLDOWN
      {
        ResetBounds(f.value, now);
        ResetsBounded(f.value, now);
      }
    case Array(items) =>
      forall x | x in items ensures forall t :: t in Resets(x, now) ==> now + MIN_COOLDOWN <= t <= now + MAX_COOLDOWN {
        ResetsBounded(x, now);
      }
    case _ =>
  }

  /** Whatever the order of map iteration, the walk finds the earliest reset in the body. */
  lemma {:induction false} WalkFindsEarliest(best: nat, v: Json, now: nat)
    ensures IsEarliest(Walk(best, v, now), best, Resets(v, now))
    decreases v, 0
  {
    match v
    case Object(fields) =>
      WalkFieldsEarliest(best, v, 0, now);
      assert fields[0..] == fields && FieldResets(fields, now) == Resets(v, now);
    case Array(items) =>
      WalkItemsEarliest(best, v, 0, now);
      assert items[0..] == items && ItemResets(items, now) == Resets(v, now);
    case _ =>
  }

  lemma {:induction false} WalkFieldsEarliest(best: nat, v: Json, i: nat, now: nat)
    requires v.Object? && i <= |v.fields|
    ensures IsEarliest(WalkFields(best, v, i, now), best, FieldResets(v.fields[i..], now))
    decreases v, 0, |v.fields| - i
  {
    hide Resets, IsResetKey, OwnReset;
    if i < |v.fields| {
      var f := v.fields[i];
      var here := if IsResetKey(f.key) then Earlier(best, CoerceReset(f.value, now)) else best;
      OwnEarliest(best, f, now);
      WalkFindsEarliest(here, f.value, now);
      var next := Walk(here, f.value, now);
      WalkFieldsEarliest(next, v, i + 1, now);
      OneField(v.fields, i, now);
      ResetsBounded(v, now);
      FieldsNotZero(v, i, now);
      EarliestTrans(best, here, next, OwnReset(f, now), Resets(f.value, now));
      EarliestTrans(best, next, WalkFields(next, v, i + 1, now), OwnReset(f, now) + Resets(f.value, now),
        FieldResets(v.fields[i + 1..], now));
    } else {
      assert v.fields[i..] == [];
    }
  }

  lemma OwnEarliest(best: nat, f: Field, now: nat)
    ensures var here := if IsResetKey(f.key) then Earlier(best, CoerceReset(f.value, now)) else best;
            IsEarliest(here, best, OwnReset(f, now)) && 0 !in OwnReset(f, now)
  {
  }

  lemma FieldsNotZero(v: Json, i: nat, now: nat)
    requires v.Object? && i < |v.fields|
    ensures 0 !in OwnReset(v.fields[i], now) && 0 !in Resets(v.fields[i].value, now)
    ensures 0 !in FieldResets(v.fields[i + 1..], now)
  {
    hide IsResetKey;
    forall f | f in v.fields ensures 0 !in OwnReset(f, now) && 0 !in Resets(f.value, now) {
      ResetBounds(f.value, now);
      ResetsBounded(f.value, now);
    }
    assert forall f :: f in v.fields[i + 1..] ==> f in v.fields;
  }

  lemma {:induction false} WalkItemsEarliest(best: nat, v: Json, i: nat, now: nat)
    requires v.Array? && i <= |v.items|
    ensures IsEarliest(WalkItems(best, v, i, now), best, ItemResets(v.items[i..], now))
    decreases v, 0, |v.items| - i
  {
    hide Resets;
    if i < |v.items| {
      WalkFindsEarliest(best, v.items[i], now);
      var next := Walk(best, v.items[i], now);
      WalkItemsEarliest(next, v, i + 1, now);
      OneItem(v.items, i, now);
      forall x | x in v.items ensures 0 !in Resets(x, now) { ResetsBounded(x, now); }
      assert forall x :: x in v.items[i + 1..] ==> x in v.items;
      EarliestTrans(best, next, WalkItems(next, v, i + 1, now), Resets(v.items[i], now),
        ItemResets(v.items[i + 1..], now));
    } else {
      assert v.items[i..] == [];
    }
  }

  /** Two bodies that mention the same resets, in any order and nesting, give the same one. */
  lemma WalkIgnoresOrder(v: Json, w: Json, now: nat)
    requires Resets(v, now) == Resets(w, now)
    ensures Walk(0, v, now) == Walk(0, w, now)
  {
    hide Walk, Resets;
    WalkFindsEarliest(0, v, now);
    WalkFindsEarliest(0, w, now);
  }

  lemma FieldOrderIrrelevant(a: seq<Field>, b: seq<Field>, now: nat)
    requires multiset(a) == multiset(b)
    ensures Walk(0, Object(a), now) == Walk(0, Object(b), now)
  {
    hide Walk, OwnReset;
    assert forall f :: f in a <==> f in multiset(a);
    assert forall f :: f in b <==> f in multiset(b);
    assert Resets(Object(a), now) == Resets(Object(b), now);
    WalkIgnoresOrder(Object(a), Object(b), now);
  }

  // ----- the decision -----

  function FromHeaders(headers: seq<Text>, now: nat): Option<nat> {
    if headers == [] then None
    else
      var first := ParseReset(headers[0], now);
      if first.Some? then first else FromHeaders(headers[1..], now)
  }

  function DefaultCooldown(wording: Wording): nat {
    match wording
    case SaysWeek => DEFAULT_WEEKLY
    case SaysUsage => DEFAULT_USAGE
    case SaysNeither => DEFAULT_SHORT
  }

  /** A 429: its reset headers in order of preference, its body if it is JSON, its wording. */
  datatype RateLimit = RateLimit(headers: seq<Text>, body: Option<Json>, wording: Wording)

  function DeriveCooldown(r: RateLimit, now: nat): nat {
    var h := FromHeaders(r.headers, now);
    if h.Some? then h.value
    else
      var b := if r.body.Some? then Walk(0, r.body.value, now) else 0;
      if b != 0 then b else now + DefaultCooldown(r.wording)
  }

  lemma {:induction false} HeadersBounded(headers: seq<Text>, now: nat)
    ensures forall u :: FromHeaders(headers, now) == Some(u) ==> now + MIN_COOLDOWN <= u <= now + MAX_COOLDOWN
  {
    if headers != [] { HeadersBounded(headers[1..], now); }
  }

  /** Whatever the headers, the body or the order of its fields: between 30 seconds and 8 days. */
  lemma CooldownBounded(r: RateLimit, now: nat)
    ensures now + MIN_COOLDOWN <= DeriveCooldown(r, now) <= now + MAX_COOLDOWN
  {
    hide Walk, Resets;
    HeadersBounded(r.headers, now);
    if r.body.Some? {
      WalkFindsEarliest(0, r.body.value, now);
      ResetsBounded(r.body.value, now);
    }
  }

  // ----- the decision, said outright -----

  /** t, or the nearer end of the time between 30 seconds and 8 days from now. */
  ghost predicate Nearest(r: nat, now: nat, t: int) {
    var low, high := now + 30 * SECOND, now + 691_200 * SECOND;
    (t < low ==> r == low) && (t > high ==> r == high) && (low <= t <= high ==> r == t)
  }

  /** When a number of seconds, or a Unix time from 10^9 on, says that the limit resets; never for a number below zero. */
  ghost predicate NumberMeans(n: Number, now: nat, r: Option<nat>) {
    match n
    case NotPositive => r.None?
    case Small(seconds) => r.Some? && Nearest(r.value, now, now + seconds * SECOND)
    case Large(unix) => r.Some? && Nearest(r.value, now, 62_135_596_800 * SECOND + unix * SECOND)
  }

  ghost predicate TextMeans(v: Text, now: nat, r: Option<nat>) {
    match v
    case Numeric(n) => NumberMeans(n, now, r)
    case Date(t) => r.Some? && Nearest(r.value, now, t)
    case Empty => r.None?
    case Unparsable => r.None?
  }

  /** What a parsed header or a body value means. */
  lemma ResetMeans(v: Text, n: Number, now: nat)
    ensures TextMeans(v, now, ParseReset(v, now))
    ensures CoerceReset(JsonText(v), now) == ParseReset(v, now)
    ensures NumberMeans(n, now, CoerceReset(JsonNumber(n), now))
    ensures forall j: Json :: !j.JsonText? && !j.JsonNumber? ==> CoerceReset(j, now).None?
  {
  }

  ghost predicate OccursAt(s: string, word: string, i: nat) {
    i + |word| <= |s| && s[i..i + |word|] == word
  }

  ghost predicate Occurs(s: string, word: string) {
    exists i: nat :: OccursAt(s, word, i)
  }

  lemma {:induction false} ContainsOccurs(s: string, word: string)
    ensures Contains(s, word) <==> Occurs(s, word)
  {
    if word <= s {
      assert OccursAt(s, word, 0);
    } else if s != [] {
      ContainsOccurs(s[1..], word);
      if Occurs(s, word) {
        var i: nat :| OccursAt(s, word, i);
        assert i > 0;
        assert OccursAt(s[1..], word, i - 1);
      }
      if Occurs(s[1..], word) {
        var i: nat :| OccursAt(s[1..], word, i);
        assert OccursAt(s, word, i + 1);
      }
    }
  }

  lemma ShorterOccurs(s: string, word: string, n: nat)
    requires n <= |word| && Occurs(s, word)
    ensures Occurs(s, word[..n])
  {
    var i: nat :| OccursAt(s, word, i);
    assert s[i..i + n] == s[i..i + |word|][..n];
    assert OccursAt(s, word[..n], i);
  }

  /** Which keys of a body are looked at, in whatever case; the code asks for two longer words as well. */
  lemma ResetKeys(key: string)
    ensures IsResetKey(key) <==>
            var k := ToLower(key);
            Occurs(k, "reset") || Occurs(k, "retry") || Occurs(k, "seconds_until") || Occurs(k, "cooldown")
  {
    hide Occurs, Contains;
    var k := ToLower(key);
    ContainsOccurs(k, "reset");
    ContainsOccurs(k, "retry");
    ContainsOccurs(k, "seconds_until");
    ContainsOccurs(k, "cooldown");
    ContainsOccurs(k, "resets_in");
    ContainsOccurs(k, "resets_at");
    assert "resets_in"[..5] == "reset" && "resets_at"[..5] == "reset";
    if Occurs(k, "resets_in") { ShorterOccurs(k, "resets_in", 5); }
    if Occurs(k, "resets_at") { ShorterOccurs(k, "resets_at", 5); }
  }

  /** h is the first header that parses. */
  ghost predicate FirstParses(headers: seq<Text>, now: nat, h: nat) {
    h < |headers| && ParseReset(headers[h], now).Some? &&
    forall i :: 0 <= i < h ==> ParseReset(headers[i], now).None?
  }

  /** The least element of a set. */
  ghost predicate IsLeast(r: nat, s: set<nat>) {
    r in s && forall t :: t in s ==> r <= t
  }

  ghost function BodyResets(r: RateLimit, now: nat): set<nat> {
    if r.body.Some? then Resets(r.body.value, now) else {}
  }

  lemma {:induction false} FirstHeader(headers: seq<Text>, now: nat)
    ensures match FromHeaders(headers, now)
            case None => forall i :: 0 <= i < |headers| ==> ParseReset(headers[i], now).None?
            case Some(u) => exists h: nat :: FirstParses(headers, now, h) && ParseReset(headers[h], now) == Some(u)
  {
    hide ParseReset;
    if headers != [] {
      if ParseReset(headers[0], now).Some? {
        assert FirstParses(headers, now, 0);
      } else {
        FirstHeader(headers[1..], now);
        if FromHeaders(headers, now).Some? {
          assert FromHeaders(headers, now) == FromHeaders(headers[1..], now);
          var h: nat :| FirstParses(headers[1..], now, h) && ParseReset(headers[1..][h], now) == FromHeaders(headers, now);
          assert forall i :: 0 < i < |headers| ==> headers[i] == headers[1..][i - 1];
          assert FirstParses(headers, now, h + 1);
        }
      }
    }
  }

  /**
   Until when a 429 benches: the first header that parses decides; without one, the earliest
   reset in the body; without any, 7 days, 5 hours or 60 seconds by its wording.
   */
  lemma DecisionExactly(r: RateLimit, now: nat)
    ensures forall h: nat :: FirstParses(r.headers, now, h) ==> ParseReset(r.headers[h], now) == Some(DeriveCooldown(r, now))
    ensures (forall h: nat :: !FirstParses(r.headers, now, h)) && BodyResets(r, now) != {} ==>
              IsLeast(DeriveCooldown(r, now), BodyResets(r, now))
    ensures (forall h: nat :: !FirstParses(r.headers, now, h)) && BodyResets(r, now) == {} ==>
              DeriveCooldown(r, now) == now + (match r.wording
                                               case SaysWeek => 604_800 * SECOND
                                               case SaysUsage => 18_000 * SECOND
                                               case SaysNeither => 60 * SECOND)
  {
    hide Walk, Resets, ParseReset;
    FirstHeader(r.headers, now);
    if FromHeaders(r.headers, now).Some? {
      var g: nat :| FirstParses(r.headers, now, g) && ParseReset(r.headers[g], now) == FromHeaders(r.headers, now);
      forall h: nat | FirstParses(r.headers, now, h) ensures h == g {
      }
    } else {
      forall h: nat ensures !FirstParses(r.headers, now, h) {
      }
      if r.body.Some? { WalkFindsEarliest(0, r.body.value, now); }
    }
  }
}
