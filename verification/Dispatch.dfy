/**
 The failover loop of dispatchUpstream (proxy.go). Other requests share the pool: what they
 do to it between this request's own locked calls is part of each attempt.
 */
module Dispatch {
  import opened Base
  import opened Cooldown
  import opened Accounts
  import opened AccountObjects

  datatype Auth = Token | RefreshFailed | RefreshCancelled

  /** `limit` is what a 429 carries; other statuses ignore it. */
  datatype Reply = BuildFailed | TransportFailed | Http(code: int, limit: RateLimit)

  const TOO_MANY := 429

  /** Everything one attempt meets, in order. */
  datatype Attempt = Attempt(cancelled: bool, before: seq<Event>, now: nat, auth: Auth,
                             during: seq<Event>, rlNow: nat, reply: Reply)

  type Environment = nat -> Attempt

  /** One account tried: at which attempt, when, and until when it was benched for it. */
  datatype Try = Try(attempt: nat, idx: nat, now: nat, benched: Option<nat>)

  datatype Result = Served(idx: nat, code: int) | Failed(status: int)
  datatype Memory = Memory(rateLimited: bool, authFailed: bool)
  datatype Dispatched = Dispatched(pool: Pool, result: Result, tries: seq<Try>)

  function Update(p: Pool, idx: nat, a: Acct): Pool {
    if idx < |p.accounts| then p.(accounts := p.accounts[idx := a]) else p
  }

  function Other(p: Pool, e: Event): Pool {
    match e
    case PickEvent(_, stamp) => Pick(p, stamp).0
    case CoolEvent(_, idx, stamp, until) =>
      if idx < |p.accounts| then Update(p, idx, Cooled(p.accounts[idx], stamp, until)) else p
    case ClearEvent(_, idx) => Update(p, idx, READY)
  }

  function Others(p: Pool, events: seq<Event>): (r: Pool)
    ensures |r.accounts| == |p.accounts| && (ValidPool(p) ==> ValidPool(r))
    decreases |events|
  {
    if events == [] then p else Others(Other(p, events[0]), events[1..])
  }

  function GiveUp(p: Pool, memory: Memory, tries: seq<Try>): Dispatched {
    Dispatched(p, Failed(if memory.rateLimited then 429 else if memory.authFailed then 502 else 429), tries)
  }

  function Loop(env: Environment, p: Pool, attempt: nat, n: nat, memory: Memory, tries: seq<Try>): Dispatched
    decreases n - attempt
  {
    if attempt >= n then GiveUp(p, memory, tries)
    else
      var a := env(attempt);
      if a.cancelled then Dispatched(p, Failed(408), tries)
      else
        var (p1, choice) := Pick(Others(p, a.before), a.now);
        if choice.None? then GiveUp(p1, memory, tries)
        else
          var idx := choice.value;
          var p2 := Others(p1, a.during);
          var tried := tries + [Try(attempt, idx, a.now, None)];
          match a.auth
          case RefreshCancelled => Dispatched(p2, Failed(408), tried)
          case RefreshFailed =>
            var until := a.now + AUTH_ERROR_COOLDOWN;
            Loop(env, Update(p2, idx, Cooled(p2.accounts[idx], a.now, until)), attempt + 1, n,
                 memory.(authFailed := true), tries + [Try(attempt, idx, a.now, Some(until))])
          case Token =>
            if !a.reply.Http? then Dispatched(p2, Failed(502), tried)
            else if a.reply.code == TOO_MANY then
              var until := DeriveCooldown(a.reply.limit, a.rlNow);
              Loop(env, Update(p2, idx, Cooled(p2.accounts[idx], a.rlNow, until)), attempt + 1, n,
                   memory.(rateLimited := true), tries + [Try(attempt, idx, a.now, Some(until))])
            else
              Dispatched(if a.reply.code < 400 then Update(p2, idx, READY) else p2, Served(idx, a.reply.code), tried)
  }

  function DispatchUpstream(env: Environment, p: Pool): Dispatched {
    if p.accounts == [] then Dispatched(p, Failed(502), [])
    else Loop(env, p, 0, |p.accounts|, Memory(false, false), [])
  }

  // ----- what every dispatch keeps to -----

  /** The attempts that must bench their account: a 429, or a refresh that failed uncancelled. */
  predicate Refused(a: Attempt) {
    a.auth.RefreshFailed? || (a.auth.Token? && a.reply.Http? && a.reply.code == TOO_MANY)
  }

  predicate Recorded(env: Environment, t: Try) {
    var a := env(t.attempt);
    t.now == a.now && (t.benched.Some? <==> Refused(a)) &&
    (t.benched.Some? ==>
       var stamp := if a.auth.RefreshFailed? then a.now else a.rlNow;
       t.benched.value == (if a.auth.RefreshFailed? then stamp + 120 * SECOND else DeriveCooldown(a.reply.limit, stamp)) &&
       stamp + MIN_COOLDOWN <= t.benched.value <= stamp + MAX_COOLDOWN)
  }

  /** Tries are one per attempt in order; each benched its account exactly if it was refused. */
  ghost predicate Truthful(env: Environment, tries: seq<Try>) {
    forall i :: 0 <= i < |tries| ==> tries[i].attempt == i && Recorded(env, tries[i])
  }

  ghost predicate AllBenched(tries: seq<Try>) {
    forall i :: 0 <= i < |tries| ==> tries[i].benched.Some?
  }

  /** At most n tries, truthful, all but the last benched; a served request was not a 429. */
  ghost predicate Contract(env: Environment, d: Dispatched, n: nat) {
    && |d.tries| <= n && Truthful(env, d.tries)
    && (forall i :: 0 <= i < |d.tries| - 1 ==> d.tries[i].benched.Some?)
    && (d.result.Served? ==> d.result.code != TOO_MANY && d.tries != [] && Last(d.tries).idx == d.result.idx)
    && (d.result.Served? ==> Last(d.tries).benched.None?)
  }

  function Last(tries: seq<Try>): Try {
    if tries == [] then Try(0, 0, 0, None) else tries[|tries| - 1]
  }

  lemma TruthfulAppend(env: Environment, tries: seq<Try>, t: Try)
    requires Truthful(env, tries) && t.attempt == |tries| && Recorded(env, t)
    ensures Truthful(env, tries + [t])
  {
  }

  lemma {:induction false} LoopContract(env: Environment, p: Pool, attempt: nat, n: nat, memory: Memory,
                                        tries: seq<Try>)
    requires attempt <= n && Truthful(env, tries) && |tries| == attempt && AllBenched(tries)
    ensures Contract(env, Loop(env, p, attempt, n, memory, tries), n)
    decreases n - attempt
  {
    hide Pick, Others, DeriveCooldown, Update, Truthful;
    if attempt < n && !env(attempt).cancelled {
      var a := env(attempt);
      var (p1, choice) := Pick(Others(p, a.before), a.now);
      if choice.Some? {
        var idx := choice.value;
        var p2 := Others(p1, a.during);
        if a.auth.RefreshFailed? {
          var until := a.now + AUTH_ERROR_COOLDOWN;
          var t := Try(attempt, idx, a.now, Some(until));
          TruthfulAppend(env, tries, t);
          LoopContract(env, Update(p2, idx, Cooled(p2.accounts[idx], a.now, until)), attempt + 1, n,
            memory.(authFailed := true), tries + [t]);
        } else if Refused(a) {
          CooldownBounded(a.reply.limit, a.rlNow);
          var until := DeriveCooldown(a.reply.limit, a.rlNow);
          var t := Try(attempt, idx, a.now, Some(until));
          TruthfulAppend(env, tries, t);
          LoopContract(env, Update(p2, idx, Cooled(p2.accounts[idx], a.rlNow, until)), attempt + 1, n,
            memory.(rateLimited := true), tries + [t]);
        } else {
          TruthfulAppend(env, tries, Try(attempt, idx, a.now, None));
        }
      }
    }
  }

  /** At most n attempts; benches exactly the refused accounts; never hands on a 429 response. */
  lemma DispatchContract(env: Environment, p: Pool)
    ensures Contract(env, DispatchUpstream(env, p), |p.accounts|)
  {
    hide Loop;
    if p.accounts != [] { LoopContract(env, p, 0, |p.accounts|, Memory(false, false), []); }
  }

  // ----- what is served -----

  /** The last attempt got an answer from upstream that was no 429. */
  predicate Answered(a: Attempt) {
    a.auth.Token? && a.reply.Http? && a.reply.code != TOO_MANY
  }

  /** Served exactly when the last account tried answered, with its code. */
  ghost predicate ServedAsAnswered(env: Environment, d: Dispatched) {
    var m := |d.tries|;
    (d.result.Served? <==> m > 0 && Answered(env(m - 1))) &&
    (d.result.Served? ==> d.result.code == env(m - 1).reply.code && d.result.idx == d.tries[m - 1].idx)
  }

  /** The account that answered below 400 is released, whatever others do. */
  ghost predicate Released(env: Environment, d: Dispatched) {
    var m := |d.tries|;
    m > 0 && Answered(env(m - 1)) && env(m - 1).reply.code < 400 ==>
      d.tries[m - 1].idx < |d.pool.accounts| && d.pool.accounts[d.tries[m - 1].idx] == READY
  }

  lemma {:induction false} LoopServes(env: Environment, p: Pool, attempt: nat, n: nat, memory: Memory, tries: seq<Try>)
    requires |tries| == attempt && (attempt > 0 ==> Refused(env(attempt - 1)))
    ensures ServedAsAnswered(env, Loop(env, p, attempt, n, memory, tries))
    ensures Released(env, Loop(env, p, attempt, n, memory, tries))
    decreases n - attempt
  {
    hide Pick, Others, DeriveCooldown;
    if attempt < n && !env(attempt).cancelled {
      var a := env(attempt);
      var (p1, choice) := Pick(Others(p, a.before), a.now);
      if choice.Some? {
        var idx := choice.value;
        var p2 := Others(p1, a.during);
        if a.auth.RefreshFailed? {
          var until := a.now + AUTH_ERROR_COOLDOWN;
          LoopServes(env, Update(p2, idx, Cooled(p2.accounts[idx], a.now, until)), attempt + 1, n,
            memory.(authFailed := true), tries + [Try(attempt, idx, a.now, Some(until))]);
        } else if Refused(a) {
          var until := DeriveCooldown(a.reply.limit, a.rlNow);
          LoopServes(env, Update(p2, idx, Cooled(p2.accounts[idx], a.rlNow, until)), attempt + 1, n,
            memory.(rateLimited := true), tries + [Try(attempt, idx, a.now, Some(until))]);
        }
      }
    }
  }

  /** What a dispatch serves is upstream's answer, and whoever gave it below 400 is released. */
  lemma ServedExactly(env: Environment, p: Pool)
    ensures ServedAsAnswered(env, DispatchUpstream(env, p)) && Released(env, DispatchUpstream(env, p))
  {
    hide Loop;
    if p.accounts != [] { LoopServes(env, p, 0, |p.accounts|, Memory(false, false), []); }
  }

  // ----- how far it goes -----

  predicate NobodyUsable(p: Pool, now: nat) {
    forall k :: 0 <= k < |p.accounts| ==> !Available(p.accounts[k], now) && !ProbeDue(p.accounts[k], now)
  }

  /** A dispatch stops short of n attempts only for an answer, a cancellation, or when nobody is left to try. */
  ghost predicate Persistent(env: Environment, d: Dispatched, n: nat) {
    var m := |d.tries|;
    m < n && !env(m).cancelled && (m > 0 ==> Refused(env(m - 1))) ==> NobodyUsable(d.pool, env(m).now)
  }

  /** The first account tried is the first usable one from the active account on. */
  ghost predicate StartsRight(env: Environment, p: Pool, d: Dispatched) {
    d.tries != [] ==>
      var q := Others(p, env(0).before);
      var anyReady := exists k :: 0 <= k < |q.accounts| && Available(q.accounts[k], env(0).now);
      FirstUsable(q, env(0).now, !anyReady, d.tries[0].idx)
  }

  lemma UpdateValid(p: Pool, idx: nat, a: Acct)
    requires ValidPool(p)
    ensures ValidPool(Update(p, idx, a))
  {
  }

  lemma {:induction false} LoopPersists(env: Environment, p: Pool, attempt: nat, n: nat, memory: Memory,
                                        tries: seq<Try>)
    requires ValidPool(p) && |tries| == attempt <= n && (attempt > 0 ==> Refused(env(attempt - 1)))
    ensures Persistent(env, Loop(env, p, attempt, n, memory, tries), n)
    ensures tries <= Loop(env, p, attempt, n, memory, tries).tries
    decreases n - attempt
  {
    hide Search, Place, Others, DeriveCooldown, Update;
    if attempt < n && !env(attempt).cancelled {
      var a := env(attempt);
      var q := Others(p, a.before);
      PickIsFirst(q, a.now);
      var (p1, choice) := Pick(q, a.now);
      if choice.Some? {
        var idx := choice.value;
        var p2 := Others(p1, a.during);
        if a.auth.RefreshFailed? {
          var until := a.now + AUTH_ERROR_COOLDOWN;
          UpdateValid(p2, idx, Cooled(p2.accounts[idx], a.now, until));
          LoopPersists(env, Update(p2, idx, Cooled(p2.accounts[idx], a.now, until)), attempt + 1, n,
            memory.(authFailed := true), tries + [Try(attempt, idx, a.now, Some(until))]);
        } else if Refused(a) {
          var until := DeriveCooldown(a.reply.limit, a.rlNow);
          UpdateValid(p2, idx, Cooled(p2.accounts[idx], a.rlNow, until));
          LoopPersists(env, Update(p2, idx, Cooled(p2.accounts[idx], a.rlNow, until)), attempt + 1, n,
            memory.(rateLimited := true), tries + [Try(attempt, idx, a.now, Some(until))]);
        }
      }
    }
  }

  /** The first turn of the loop: nobody, or the account that pick chooses. */
  lemma FirstTurn(env: Environment, p: Pool, n: nat)
    requires n > 0 && ValidPool(p)
    ensures var d := Loop(env, p, 0, n, Memory(false, false), []);
            d.tries != [] ==> Pick(Others(p, env(0).before), env(0).now).1 == Some(d.tries[0].idx)
  {
    hide Pick, Others, DeriveCooldown, Update;
    var a := env(0);
    var (p1, choice) := Pick(Others(p, a.before), a.now);
    if !a.cancelled && choice.Some? {
      var idx := choice.value;
      var p2 := Others(p1, a.during);
      PickValid(Others(p, a.before), a.now);
      if a.auth.RefreshFailed? {
        var until := a.now + AUTH_ERROR_COOLDOWN;
        UpdateValid(p2, idx, Cooled(p2.accounts[idx], a.now, until));
        LoopPersists(env, Update(p2, idx, Cooled(p2.accounts[idx], a.now, until)), 1, n,
          Memory(false, true), [] + [Try(0, idx, a.now, Some(until))]);
      } else if Refused(a) {
        var until := DeriveCooldown(a.reply.limit, a.rlNow);
        UpdateValid(p2, idx, Cooled(p2.accounts[idx], a.rlNow, until));
        LoopPersists(env, Update(p2, idx, Cooled(p2.accounts[idx], a.rlNow, until)), 1, n,
          Memory(true, false), [] + [Try(0, idx, a.now, Some(until))]);
      }
    }
  }

  lemma PickValid(p: Pool, now: nat)
    requires ValidPool(p)
    ensures ValidPool(Pick(p, now).0)
  {
  }

  /** A dispatch starts with the account that pick promises and rotates until there is nobody left. */
  lemma DispatchRotates(env: Environment, p: Pool)
    requires ValidPool(p)
    ensures Persistent(env, DispatchUpstream(env, p), |p.accounts|) && StartsRight(env, p, DispatchUpstream(env, p))
  {
    hide Loop, Pick, Others, FirstUsable;
    if p.accounts != [] {
      LoopPersists(env, p, 0, |p.accounts|, Memory(false, false), []);
      FirstTurn(env, p, |p.accounts|);
      PickIsFirst(Others(p, env(0).before), env(0).now);
    }
  }

  // ----- what a failure means -----

  predicate RateLimited(a: Attempt) {
    a.auth.Token? && a.reply.Http? && a.reply.code == TOO_MANY
  }

  /** What the loop remembers is what its attempts met. */
  ghost predicate Remembers(env: Environment, memory: Memory, attempt: nat) {
    && (memory.rateLimited <==> exists i :: 0 <= i < attempt && RateLimited(env(i)))
    && (memory.authFailed <==> exists i :: 0 <= i < attempt && env(i).auth.RefreshFailed?)
    && (attempt > 0 ==> memory.rateLimited || memory.authFailed)
  }

  /** The attempt that ended the loop early, if one did. */
  predicate Broke(a: Attempt) {
    a.auth.Token? && !a.reply.Http?
  }

  /**
   408 only for a cancelled request; 502 only for a request that could not be sent, or if every
   account tried failed to refresh; 429 only if some account was rate limited or none could be tried.
   */
  ghost predicate Explained(env: Environment, d: Dispatched) {
    d.result.Failed? ==>
      var m := |d.tries|;
      match d.result.status
      case 408 => env(m).cancelled || (m > 0 && env(m - 1).auth.RefreshCancelled?)
      case 502 => m > 0 && (Broke(env(m - 1)) || forall i :: 0 <= i < m ==> env(i).auth.RefreshFailed?)
      case 429 => m == 0 || exists i :: 0 <= i < m && RateLimited(env(i))
      case _ => false
  }

  lemma GiveUpExplained(env: Environment, p: Pool, memory: Memory, tries: seq<Try>)
    requires Remembers(env, memory, |tries|)
    requires forall i :: 0 <= i < |tries| ==> Refused(env(i))
    ensures Explained(env, GiveUp(p, memory, tries))
  {
    if !memory.rateLimited && memory.authFailed {
      forall i | 0 <= i < |tries| ensures env(i).auth.RefreshFailed? {
        assert !RateLimited(env(i));
      }
    }
  }

  lemma RemembersNext(env: Environment, memory: Memory, attempt: nat)
    requires Remembers(env, memory, attempt) && Refused(env(attempt))
    ensures Remembers(env, if env(attempt).auth.RefreshFailed? then memory.(authFailed := true)
                           else memory.(rateLimited := true), attempt + 1)
  {
    if env(attempt).auth.RefreshFailed? {
      assert !RateLimited(env(attempt));
    } else {
      assert RateLimited(env(attempt));
    }
  }

  lemma {:induction false} LoopExplained(env: Environment, p: Pool, attempt: nat, n: nat, memory: Memory,
                                         tries: seq<Try>)
    requires |tries| == attempt && Remembers(env, memory, attempt)
    requires forall i :: 0 <= i < attempt ==> Refused(env(i))
    ensures Explained(env, Loop(env, p, attempt, n, memory, tries))
    decreases n - attempt
  {
    hide Pick, Others, DeriveCooldown, Update, Remembers;
    var a := env(attempt);
    if attempt >= n {
      GiveUpExplained(env, p, memory, tries);
    } else if !a.cancelled {
      var (p1, choice) := Pick(Others(p, a.before), a.now);
      if choice.None? {
        GiveUpExplained(env, p1, memory, tries);
      } else {
        var idx := choice.value;
        var p2 := Others(p1, a.during);
        if Refused(a) {
          RemembersNext(env, memory, attempt);
          if a.auth.RefreshFailed? {
            var until := a.now + AUTH_ERROR_COOLDOWN;
            LoopExplained(env, Update(p2, idx, Cooled(p2.accounts[idx], a.now, until)), attempt + 1, n,
              memory.(authFailed := true), tries + [Try(attempt, idx, a.now, Some(until))]);
          } else {
            var until := DeriveCooldown(a.reply.limit, a.rlNow);
            LoopExplained(env, Update(p2, idx, Cooled(p2.accounts[idx], a.rlNow, until)), attempt + 1, n,
              memory.(rateLimited := true), tries + [Try(attempt, idx, a.now, Some(until))]);
          }
        }
      }
    }
  }

  /** Every failure says why, truthfully; an empty pool is a 502 with nothing tried. */
  lemma FailuresExplained(env: Environment, p: Pool)
    ensures var d := DispatchUpstream(env, p);
            if p.accounts == [] then d == Dispatched(p, Failed(502), []) else Explained(env, d)
  {
    hide Loop, Explained;
    LoopExplained(env, p, 0, |p.accounts|, Memory(false, false), []);
  }

  // ----- what a dispatch does to cooldowns -----

  /** Account k's cooldown after these tries, from what it was. */
  function BenchedUntil(tries: seq<Try>, k: nat, was: nat): nat {
    if tries == [] then was
    else
      var before := BenchedUntil(tries[..|tries| - 1], k, was);
      var t := tries[|tries| - 1];
      if t.idx == k && t.benched.Some? then Max(before, t.benched.value) else before
  }

  lemma BenchedAppend(tries: seq<Try>, t: Try, k: nat, was: nat)
    ensures BenchedUntil(tries + [t], k, was) ==
            if t.idx == k && t.benched.Some? then Max(BenchedUntil(tries, k, was), t.benched.value)
            else BenchedUntil(tries, k, was)
  {
  }

  ghost predicate Alone(env: Environment, n: nat) {
    forall i :: 0 <= i < n ==> env(i).before == [] && env(i).during == []
  }

  /** Account k's cooldown is exactly what the tries account for, unless k served the request. */
  predicate Settled(d: Dispatched, k: nat, was: nat) {
    k < |d.pool.accounts| &&
    d.pool.accounts[k].cooldownUntil ==
      if d.result.Served? && d.result.idx == k && d.result.code < 400 then 0 else BenchedUntil(d.tries, k, was)
  }

  lemma PickKeepsCooldowns(p: Pool, now: nat, k: nat)
    requires k < |p.accounts|
    ensures Pick(p, now).0.accounts[k].cooldownUntil == p.accounts[k].cooldownUntil
  {
  }

  lemma {:induction false} LoopSettles(env: Environment, p: Pool, attempt: nat, n: nat, memory: Memory,
                                       tries: seq<Try>, k: nat, was: nat)
    requires Alone(env, n) && k < |p.accounts| && p.accounts[k].cooldownUntil == BenchedUntil(tries, k, was)
    ensures Settled(Loop(env, p, attempt, n, memory, tries), k, was)
    decreases n - attempt
  {
    hide Pick, DeriveCooldown, BenchedUntil;
    if attempt < n && !env(attempt).cancelled {
      var a := env(attempt);
      assert Others(p, []) == p;
      PickKeepsCooldowns(p, a.now, k);
      var (p1, choice) := Pick(p, a.now);
      if choice.Some? {
        var idx := choice.value;
        assert Others(p1, []) == p1;
        BenchedAppend(tries, Try(attempt, idx, a.now, None), k, was);
        if a.auth.RefreshFailed? {
          var until := a.now + AUTH_ERROR_COOLDOWN;
          var t := Try(attempt, idx, a.now, Some(until));
          BenchedAppend(tries, t, k, was);
          LoopSettles(env, Update(p1, idx, Cooled(p1.accounts[idx], a.now, until)), attempt + 1, n,
            memory.(authFailed := true), tries + [t], k, was);
        } else if Refused(a) {
          var until := DeriveCooldown(a.reply.limit, a.rlNow);
          var t := Try(attempt, idx, a.now, Some(until));
          BenchedAppend(tries, t, k, was);
          LoopSettles(env, Update(p1, idx, Cooled(p1.accounts[idx], a.rlNow, until)), attempt + 1, n,
            memory.(rateLimited := true), tries + [t], k, was);
        }
      }
    }
  }

  /** Undisturbed, a dispatch changes no cooldown but those of the refused and of the server. */
  lemma DispatchSettles(env: Environment, p: Pool, k: nat)
    requires Alone(env, |p.accounts|) && k < |p.accounts|
    ensures Settled(DispatchUpstream(env, p), k, p.accounts[k].cooldownUntil)
  {
    hide Loop;
    LoopSettles(env, p, 0, |p.accounts|, Memory(false, false), [], k, p.accounts[k].cooldownUntil);
  }

  // ----- no account twice -----

  predicate NoClear(events: seq<Event>) {
    forall e :: e in events ==> !e.ClearEvent?
  }

  /** Under minCooldown elapses from any pick to any later one, the clock does not run back
      within an attempt, and nobody clears a cooldown. */
  ghost predicate Quick(env: Environment, n: nat) {
    && (forall i, j :: 0 <= i < j < n ==> env(j).now < env(i).now + MIN_COOLDOWN)
    && (forall i :: 0 <= i < n ==> env(i).now <= env(i).rlNow && NoClear(env(i).before) && NoClear(env(i).during))
  }

  /** Account a cannot be picked before `until`, by availability or as a probe. */
  predicate Locked(a: Acct, until: nat) {
    a.cooldownUntil >= until && a.nextProbe >= until
  }

  lemma PickRespectsLock(p: Pool, now: nat, k: nat, until: nat)
    requires k < |p.accounts| && Locked(p.accounts[k], until)
    ensures Locked(Pick(p, now).0.accounts[k], until)
    ensures now < until ==> Pick(p, now).1 != Some(k)
  {
  }

  lemma {:induction false} OthersRespectLock(p: Pool, events: seq<Event>, k: nat, until: nat)
    requires k < |p.accounts| && Locked(p.accounts[k], until) && NoClear(events)
    ensures Locked(Others(p, events).accounts[k], until)
    decreases |events|
  {
    hide Pick;
    if events != [] {
      var e := events[0];
      if e.PickEvent? { PickRespectsLock(p, e.stamp, k, until); }
      assert events[0] in events;
      OthersRespectLock(Other(p, e), events[1..], k, until);
    }
  }

  /** Every account tried so far stays locked for the rest of a quick dispatch. */
  ghost predicate LockedIn(p: Pool, tries: seq<Try>) {
    forall i :: 0 <= i < |tries| ==>
      tries[i].idx < |p.accounts| && Locked(p.accounts[tries[i].idx], tries[i].now + MIN_COOLDOWN)
  }

  ghost predicate Distinct(tries: seq<Try>) {
    forall i, j :: 0 <= i < j < |tries| ==> tries[i].idx != tries[j].idx
  }

  lemma OthersLockedIn(p: Pool, events: seq<Event>, tries: seq<Try>)
    requires LockedIn(p, tries) && NoClear(events)
    ensures LockedIn(Others(p, events), tries)
  {
    hide Others, Locked, NoClear;
    forall i | 0 <= i < |tries|
      ensures Locked(Others(p, events).accounts[tries[i].idx], tries[i].now + MIN_COOLDOWN)
    {
      OthersRespectLock(p, events, tries[i].idx, tries[i].now + MIN_COOLDOWN);
    }
  }

  lemma PickIsNew(p: Pool, now: nat, tries: seq<Try>)
    requires LockedIn(p, tries)
    requires forall i :: 0 <= i < |tries| ==> now < tries[i].now + MIN_COOLDOWN
    ensures LockedIn(Pick(p, now).0, tries)
    ensures forall i :: 0 <= i < |tries| ==> Pick(p, now).1 != Some(tries[i].idx)
  {
  }

  lemma CoolLocksIn(p: Pool, tries: seq<Try>, t: Try, stamp: nat, until: nat)
    requires LockedIn(p, tries) && t.idx < |p.accounts| && t.now <= stamp
    requires until >= t.now + MIN_COOLDOWN
    ensures LockedIn(Update(p, t.idx, Cooled(p.accounts[t.idx], stamp, until)), tries + [t])
  {
  }

  lemma DistinctAppend(tries: seq<Try>, t: Try)
    requires Distinct(tries) && forall i :: 0 <= i < |tries| ==> tries[i].idx != t.idx
    ensures Distinct(tries + [t])
  {
  }

  lemma {:induction false} LoopTriesOnce(env: Environment, p: Pool, attempt: nat, n: nat, memory: Memory,
                                         tries: seq<Try>)
    requires Quick(env, n) && attempt <= n && LockedIn(p, tries) && Distinct(tries)
    requires |tries| == attempt && forall i :: 0 <= i < |tries| ==> tries[i].now == env(i).now
    ensures Distinct(Loop(env, p, attempt, n, memory, tries).tries)
    decreases n - attempt
  {
    hide Pick, Others, DeriveCooldown, Update, Locked, LockedIn, Distinct, NoClear;
    if attempt < n && !env(attempt).cancelled {
      var a := env(attempt);
      var p0 := Others(p, a.before);
      OthersLockedIn(p, a.before, tries);
      PickIsNew(p0, a.now, tries);
      var (p1, choice) := Pick(p0, a.now);
      if choice.Some? {
        var idx := choice.value;
        var p2 := Others(p1, a.during);
        OthersLockedIn(p1, a.during, tries);
        DistinctAppend(tries, Try(attempt, idx, a.now, None));
        if a.auth.RefreshFailed? {
          var until := a.now + AUTH_ERROR_COOLDOWN;
          var t := Try(attempt, idx, a.now, Some(until));
          DistinctAppend(tries, t);
          CoolLocksIn(p2, tries, t, a.now, until);
          LoopTriesOnce(env, Update(p2, idx, Cooled(p2.accounts[idx], a.now, until)), attempt + 1, n,
            memory.(authFailed := true), tries + [t]);
        } else if Refused(a) {
          CooldownBounded(a.reply.limit, a.rlNow);
          var until := DeriveCooldown(a.reply.limit, a.rlNow);
          var t := Try(attempt, idx, a.now, Some(until));
          DistinctAppend(tries, t);
          CoolLocksIn(p2, tries, t, a.rlNow, until);
          LoopTriesOnce(env, Update(p2, idx, Cooled(p2.accounts[idx], a.rlNow, until)), attempt + 1, n,
            memory.(rateLimited := true), tries + [t]);
        }
      }
    }
  }

  /** A quick dispatch never tries an account twice. */
  lemma NoAccountTwice(env: Environment, p: Pool)
    requires Quick(env, |p.accounts|)
    ensures Distinct(DispatchUpstream(env, p).tries)
  {
    hide Loop;
    if p.accounts != [] { LoopTriesOnce(env, p, 0, |p.accounts|, Memory(false, false), []); }
  }

  // ----- benches last -----

  ghost predicate NobodyClears(env: Environment, n: nat) {
    forall i :: 0 <= i < n ==> NoClear(env(i).before) && NoClear(env(i).during)
  }

  /** Every account these tries benched is benched at least that long in the pool. */
  ghost predicate Benched(p: Pool, tries: seq<Try>) {
    forall i :: 0 <= i < |tries| && tries[i].benched.Some? ==>
      tries[i].idx < |p.accounts| && p.accounts[tries[i].idx].cooldownUntil >= tries[i].benched.value
  }

  /** No account's cooldown is shortened. */
  ghost predicate NoShorter(p: Pool, q: Pool) {
    |q.accounts| == |p.accounts| &&
    forall k :: 0 <= k < |p.accounts| ==> p.accounts[k].cooldownUntil <= q.accounts[k].cooldownUntil
  }

  lemma {:induction false} OthersNoShorter(p: Pool, events: seq<Event>)
    requires NoClear(events)
    ensures NoShorter(p, Others(p, events))
    decreases |events|
  {
    if events != [] {
      assert events[0] in events;
      OthersNoShorter(Other(p, events[0]), events[1..]);
    }
  }

  lemma StaysBenched(p: Pool, q: Pool, tries: seq<Try>)
    requires Benched(p, tries) && NoShorter(p, q)
    ensures Benched(q, tries)
  {
  }

  lemma CoolBenches(p: Pool, tries: seq<Try>, t: Try, stamp: nat)
    requires Benched(p, tries) && t.idx < |p.accounts| && t.benched.Some?
    ensures Benched(Update(p, t.idx, Cooled(p.accounts[t.idx], stamp, t.benched.value)), tries + [t])
  {
  }

  lemma {:induction false} LoopBenches(env: Environment, p: Pool, attempt: nat, n: nat, memory: Memory, tries: seq<Try>)
    requires NobodyClears(env, n) && Benched(p, tries)
    ensures BenchesKept(Loop(env, p, attempt, n, memory, tries))
    decreases n - attempt
  {
    hide Pick, Others, DeriveCooldown, Update, NoClear, NoShorter, Benched;
    BenchedWhole(p, tries);
    if attempt < n && !env(attempt).cancelled {
      var a := env(attempt);
      var p0 := Others(p, a.before);
      OthersNoShorter(p, a.before);
      StaysBenched(p, p0, tries);
      var (p1, choice) := Pick(p0, a.now);
      PickNoShorter(p0, a.now);
      StaysBenched(p0, p1, tries);
      BenchedWhole(p1, tries);
      if choice.Some? {
        var idx := choice.value;
        var p2 := Others(p1, a.during);
        OthersNoShorter(p1, a.during);
        StaysBenched(p1, p2, tries);
        if a.auth.RefreshFailed? {
          var until := a.now + AUTH_ERROR_COOLDOWN;
          var t := Try(attempt, idx, a.now, Some(until));
          CoolBenches(p2, tries, t, a.now);
          LoopBenches(env, Update(p2, idx, Cooled(p2.accounts[idx], a.now, until)), attempt + 1, n,
            memory.(authFailed := true), tries + [t]);
        } else if Refused(a) {
          var until := DeriveCooldown(a.reply.limit, a.rlNow);
          var t := Try(attempt, idx, a.now, Some(until));
          CoolBenches(p2, tries, t, a.rlNow);
          LoopBenches(env, Update(p2, idx, Cooled(p2.accounts[idx], a.rlNow, until)), attempt + 1, n,
            memory.(rateLimited := true), tries + [t]);
        } else {
          LastUnbenched(p2, tries, Try(attempt, idx, a.now, None));
        }
      }
    }
  }

  lemma PickNoShorter(p: Pool, now: nat)
    ensures NoShorter(p, Pick(p, now).0)
  {
    hide Search;
  }

  /** All benches stand, except that of an account which then served the request. */
  ghost predicate BenchesKept(d: Dispatched) {
    forall i :: 0 <= i < |d.tries| && d.tries[i].benched.Some? ==>
      d.tries[i].idx < |d.pool.accounts| &&
      (d.pool.accounts[d.tries[i].idx].cooldownUntil >= d.tries[i].benched.value ||
       (d.result.Served? && d.result.idx == d.tries[i].idx && d.result.code < 400))
  }

  lemma BenchedWhole(p: Pool, tries: seq<Try>)
    requires Benched(p, tries)
    ensures forall result :: BenchesKept(Dispatched(p, result, tries))
  {
  }

  lemma LastUnbenched(p: Pool, tries: seq<Try>, t: Try)
    requires Benched(p, tries) && t.benched.None?
    ensures forall result :: BenchesKept(Dispatched(p, result, tries + [t]))
    ensures forall code :: code < 400 ==>
              BenchesKept(Dispatched(Update(p, t.idx, READY), Served(t.idx, code), tries + [t]))
  {
  }

  /** Whatever else others do short of clearing, every bench this dispatch imposed is in the pool. */
  lemma DispatchBenches(env: Environment, p: Pool)
    requires NobodyClears(env, |p.accounts|)
    ensures BenchesKept(DispatchUpstream(env, p))
  {
    hide Loop;
    if p.accounts != [] { LoopBenches(env, p, 0, |p.accounts|, Memory(false, false), []); }
  }

  // ----- the loop on the pool's objects -----

  method RunOthers(pool: AccountPool, events: seq<Event>)
    requires pool.Valid()
    modifies pool`active, pool.accounts
    ensures pool.Valid() && pool.View() == Others(old(pool.View()), events)
  {
    hide Pick;
    ghost var start := pool.View();
    assert events[0..] == events;
    for i := 0 to |events|
      invariant pool.Valid() && Others(start, events) == Others(pool.View(), events[i..])
    {
      assert events[i..][1..] == events[i + 1..];
      ghost var p := pool.View();
      match events[i] {
        case PickEvent(_, stamp) => var choice := pool.Pick(stamp);
        case CoolEvent(_, idx, stamp, until) =>
          if idx < |pool.accounts| { CoolOne(pool, idx, stamp, until); }
        case ClearEvent(_, idx) =>
          if idx < |pool.accounts| { ClearOne(pool, idx); }
      }
      assert pool.View() == Other(p, events[i]);
    }
  }

  method CoolOne(pool: AccountPool, idx: nat, now: nat, until: nat)
    requires pool.Valid() && idx < |pool.accounts|
    modifies pool.accounts
    ensures pool.Valid()
    ensures pool.View() == var p := old(pool.View()); Update(p, idx, Cooled(p.accounts[idx], now, until))
  {
    ghost var p := pool.View();
    pool.accounts[idx].Cool(now, until);
    assert pool.View().accounts == p.accounts[idx := Cooled(p.accounts[idx], now, until)];
  }

  method ClearOne(pool: AccountPool, idx: nat)
    requires pool.Valid() && idx < |pool.accounts|
    modifies pool.accounts
    ensures pool.Valid() && pool.View() == Update(old(pool.View()), idx, READY)
  {
    ghost var p := pool.View();
    pool.accounts[idx].ClearCooldown();
    assert pool.View().accounts == p.accounts[idx := READY];
  }

  method Run(env: Environment, pool: AccountPool) returns (result: Result, tries: seq<Try>)
    requires pool.Valid()
    modifies pool`active, pool.accounts
    ensures pool.Valid() && Dispatched(pool.View(), result, tries) == DispatchUpstream(env, old(pool.View()))
  {
    hide Pick, Others, DeriveCooldown, Update;
    tries := [];
    var n := |pool.accounts|;
    if n == 0 { return Failed(502), []; }
    var memory := Memory(false, false);
    ghost var start := pool.View();
    for attempt := 0 to n
      invariant pool.Valid()
      invariant Loop(env, start, 0, n, Memory(false, false), []) == Loop(env, pool.View(), attempt, n, memory, tries)
    {
      var a := env(attempt);
      if a.cancelled { return Failed(408), tries; }
      RunOthers(pool, a.before);
      var choice := pool.Pick(a.now);
      if choice.None? { break; }
      var idx := choice.value;
      RunOthers(pool, a.during);
      if a.auth.RefreshCancelled? { return Failed(408), tries + [Try(attempt, idx, a.now, None)]; }
      if a.auth.RefreshFailed? {
        CoolOne(pool, idx, a.now, a.now + AUTH_ERROR_COOLDOWN);
        memory := memory.(authFailed := true);
        tries := tries + [Try(attempt, idx, a.now, Some(a.now + AUTH_ERROR_COOLDOWN))];
        continue;
      }
      if !a.reply.Http? { return Failed(502), tries + [Try(attempt, idx, a.now, None)]; }
      if a.reply.code == TOO_MANY {
        var until := DeriveCooldown(a.reply.limit, a.rlNow);
        CoolOne(pool, idx, a.rlNow, until);
        memory := memory.(rateLimited := true);
        tries := tries + [Try(attempt, idx, a.now, Some(until))];
        continue;
      }
      if a.reply.code < 400 { ClearOne(pool, idx); }
      return Served(idx, a.reply.code), tries + [Try(attempt, idx, a.now, None)];
    }
    result := Failed(if memory.rateLimited then 429 else if memory.authFailed then 502 else 429);
  }
}
