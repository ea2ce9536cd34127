/**
 Token refresh under the process mutex and the file lock (auth.go, current), as a state
 machine: callers of several broker processes, the shared auth file, and the token server.
 */
module AuthRefresh {
  import opened Base

  /** The stored tokens: expiry of the access token, and the refresh token, None if blank. */
  datatype Doc = Doc(expires: int, refresh: Option<nat>)

  datatype Place =
    | Idle
    | WantsMutex
    | WantsLock                       // holds its process's mutex
    | Locked                          // holds mutex and file lock
    | Refreshing(doc: Doc)            // has read an expired document
    | Sent(doc: Doc)                  // its refresh request is out
    | Replied(doc: Doc)               // the server has answered; doc is what it will write
    | Returned(expires: int, refreshed: bool)
    | Gone                            // returned an error

  /** A refresh request: its token, what was newest when it was sent, and whether the last rotating grant had been lost. */
  datatype Request = Request(token: nat, newest: nat, afterLoss: bool)

  /**
   `newest` is the newest refresh token the server has issued and `behind` says that the grant
   which issued it was lost on its way to the file. Of the `requests` sent, `accepted` were
   granted and `refused` came to nothing.
   */
  datatype State = State(clock: int, file: Doc, mutex: map<nat, nat>, lock: Option<nat>, callers: map<nat, Place>,
                         newest: nat, behind: bool, requests: seq<Request>, accepted: nat, refused: nat)

  /**
   Which process each caller belongs to, whether the file lock excludes, whether what the server
   grants always gets written to the file, and the refresh skew.
   */
  datatype Setup = Setup(process: nat -> nat, lockWorks: bool, reliable: bool, skew: int)

  datatype Step =
    | Tick(time: int)
    | Call(c: nat)
    | TakeMutex(c: nat)
    | TakeLock(c: nat)
    | GiveUp(c: nat)                                   // context done, or an error before anything is sent
    | ReadFile(c: nat)
    | Send(c: nat)
    | Refused(c: nat)                                  // the server declines or is not reached
    | Accepted(c: nat, rotate: bool, expires: int)     // the server refreshes, with or without a new token
    | Lost(c: nat, rotate: bool)                       // granted, but the reply or the write is lost
    | WriteFile(c: nat)

  predicate At(s: State, c: nat, p: Place -> bool) {
    c in s.callers && p(s.callers[c])
  }

  predicate HoldsLock(p: Place) {
    p.Locked? || p.Refreshing? || p.Sent? || p.Replied?
  }

  predicate HoldsMutex(p: Place) {
    p.WantsLock? || HoldsLock(p)
  }

  predicate Enabled(u: Setup, s: State, step: Step) {
    match step
    case Tick(time) => s.clock <= time
    case Call(c) => c !in s.callers || s.callers[c].Idle? || s.callers[c].Returned? || s.callers[c].Gone?
    case TakeMutex(c) => At(s, c, (p: Place) => p.WantsMutex?) && u.process(c) !in s.mutex
    case TakeLock(c) => At(s, c, (p: Place) => p.WantsLock?) && (u.lockWorks ==> s.lock.None?)
    case GiveUp(c) =>
      At(s, c, (p: Place) => p.WantsMutex? || p.WantsLock? || p.Locked? || p.Refreshing?)
    case ReadFile(c) => At(s, c, (p: Place) => p.Locked?)
    case Send(c) => At(s, c, (p: Place) => p.Refreshing? && p.doc.refresh.Some?)
    case Refused(c) => At(s, c, (p: Place) => p.Sent?)
    case Accepted(c, _, _) => At(s, c, (p: Place) => p.Sent? && p.doc.refresh.Some?)
    case Lost(c, _) => !u.reliable && At(s, c, (p: Place) => p.Sent?)
    case WriteFile(c) => At(s, c, (p: Place) => p.Replied?)
  }

  /** Leave the critical section, releasing whatever is held. */
  function Exit(u: Setup, s: State, c: nat, p: Place): State
    requires c in s.callers
  {
    s.(callers := s.callers[c := p],
       lock := if HoldsLock(s.callers[c]) then None else s.lock,
       mutex := if HoldsMutex(s.callers[c]) then s.mutex - {u.process(c)} else s.mutex)
  }

  function Next(u: Setup, s: State, step: Step): State
    requires Enabled(u, s, step)
  {
    match step
    case Tick(time) => s.(clock := time)
    case Call(c) => s.(callers := s.callers[c := WantsMutex])
    case TakeMutex(c) => s.(callers := s.callers[c := WantsLock], mutex := s.mutex[u.process(c) := c])
    case TakeLock(c) => s.(callers := s.callers[c := Locked], lock := Some(c))
    case GiveUp(c) => Exit(u, s, c, Gone)
    case ReadFile(c) =>
      if s.file.expires > s.clock + u.skew then Exit(u, s, c, Returned(s.file.expires, false))
      else if s.file.refresh.None? then Exit(u, s, c, Gone)
      else s.(callers := s.callers[c := Refreshing(s.file)])
    case Send(c) =>
      var doc := s.callers[c].doc;
      s.(callers := s.callers[c := Sent(doc)], requests := s.requests + [Request(doc.refresh.value, s.newest, s.behind)])
    case Refused(c) => Exit(u, s.(refused := s.refused + 1), c, Gone)
    case Accepted(c, rotate, expires) =>
      var sentToken := s.callers[c].doc.refresh.value;
      var newest := if rotate then s.newest + 1 else s.newest;
      s.(callers := s.callers[c := Replied(Doc(expires, if rotate then Some(newest) else Some(sentToken)))],
         newest := newest, behind := s.behind && !rotate, accepted := s.accepted + 1)
    case Lost(c, rotate) =>
      Exit(u, s.(newest := if rotate then s.newest + 1 else s.newest, behind := s.behind || rotate,
                 accepted := s.accepted + 1), c, Gone)
    case WriteFile(c) =>
      var doc := s.callers[c].doc;
      Exit(u, s.(file := doc), c, Returned(doc.expires, true))
  }

  // ----- exclusion, and the newest token -----

  /** Locks are held by who took them: the mutex of its process, and the file lock if it works. */
  ghost predicate Owned(u: Setup, s: State) {
    forall c :: c in s.callers ==>
      (HoldsMutex(s.callers[c]) ==> u.process(c) in s.mutex && s.mutex[u.process(c)] == c) &&
      (u.lockWorks && HoldsLock(s.callers[c]) ==> s.lock == Some(c))
  }

  /** No lock is held by anyone who has left: whatever is locked, somebody inside will unlock. */
  ghost predicate NoLeaks(u: Setup, s: State) {
    && (forall p :: p in s.mutex ==>
          s.mutex[p] in s.callers && u.process(s.mutex[p]) == p && HoldsMutex(s.callers[s.mutex[p]]))
    && (u.lockWorks && s.lock.Some? ==> s.lock.value in s.callers && HoldsLock(s.callers[s.lock.value]))
  }

  lemma NoLeaksKept(u: Setup, s: State, step: Step)
    requires Owned(u, s) && NoLeaks(u, s) && Enabled(u, s, step)
    ensures NoLeaks(u, Next(u, s, step))
  {
    var t := Next(u, s, step);
    forall p | p in t.mutex
      ensures t.mutex[p] in t.callers && u.process(t.mutex[p]) == p && HoldsMutex(t.callers[t.mutex[p]])
    {
      assert p in s.mutex ==> s.mutex[p] in s.callers;
    }
  }

  /** When everyone has left, everything is unlocked. */
  lemma {:induction false} AllUnlocked(u: Setup, s: State, steps: seq<Step>, end: State)
    requires Owned(u, s) && NoLeaks(u, s) && Reaches(u, s, steps, end)
    ensures Owned(u, end) && NoLeaks(u, end)
    ensures (forall c :: c in end.callers ==> !HoldsMutex(end.callers[c])) ==>
              end.mutex == map[] && (u.lockWorks ==> end.lock.None?)
    decreases |steps|
  {
    hide Owned, Enabled, Next;
    if steps != [] {
      OwnedKept(u, s, steps[0]);
      NoLeaksKept(u, s, steps[0]);
      AllUnlocked(u, Next(u, s, steps[0]), steps[1..], end);
    }
  }

  ghost predicate OneProcess(u: Setup) {
    forall c: nat, d: nat :: u.process(c) == u.process(d)
  }

  /** Refreshes exclude each other: by the file lock, or by the mutex if there is one process. */
  ghost predicate Excluded(u: Setup) {
    u.lockWorks || OneProcess(u)
  }

  /** Refreshes exclude each other, and none that the server grants is lost. */
  ghost predicate Careful(u: Setup) {
    u.reliable && Excluded(u)
  }

  ghost predicate Exclusive(s: State) {
    forall c, d :: c in s.callers && d in s.callers && HoldsLock(s.callers[c]) && HoldsLock(s.callers[d]) ==> c == d
  }

  /** The file lock excludes processes that have one; the mutex alone does within a process. */
  lemma OwnedIsExclusive(u: Setup, s: State)
    requires Owned(u, s) && Excluded(u)
    ensures Exclusive(s)
  {
  }

  /** A stored token: never ahead of the server, and the newest unless the last rotating grant was lost. */
  predicate Current(token: Option<nat>, newest: nat, behind: bool) {
    token.Some? && token.value <= newest && (token.value == newest <==> !behind)
  }

  /** What a caller inside has read or is about to write, against the file and the server. */
  predicate InStep(p: Place, file: Doc, newest: nat, behind: bool) {
    match p
    case Refreshing(doc) => doc == file
    case Sent(doc) => doc == file && Current(doc.refresh, newest, behind)
    case Replied(doc) => Current(doc.refresh, newest, behind)
    case _ => true
  }

  /** Each request carried the newest token the server had issued. */
  ghost predicate CarryNewest(s: State) {
    forall i :: 0 <= i < |s.requests| ==> s.requests[i].token == s.requests[i].newest
  }

  /** Each request carried the newest token exactly if the grant that issued it had not been lost. */
  ghost predicate CarryExactly(s: State) {
    forall i :: 0 <= i < |s.requests| ==> (s.requests[i].token == s.requests[i].newest <==> !s.requests[i].afterLoss)
  }

  ghost predicate Fresh(s: State) {
    && (forall c :: c in s.callers ==> InStep(s.callers[c], s.file, s.newest, s.behind))
    && ((forall c :: c in s.callers ==> !s.callers[c].Replied?) ==> Current(s.file.refresh, s.newest, s.behind))
    && CarryExactly(s)
  }

  /** Without losses there is no loss on record. */
  ghost predicate Unlost(u: Setup, s: State) {
    u.reliable ==> !s.behind && forall i :: 0 <= i < |s.requests| ==> !s.requests[i].afterLoss
  }

  ghost predicate Inv(u: Setup, s: State) {
    Owned(u, s) && Fresh(s) && Unlost(u, s)
  }

  lemma UnlostKept(u: Setup, s: State, step: Step)
    requires Unlost(u, s) && Enabled(u, s, step)
    ensures Unlost(u, Next(u, s, step))
  {
  }

  lemma OwnedKept(u: Setup, s: State, step: Step)
    requires Owned(u, s) && Enabled(u, s, step)
    ensures Owned(u, Next(u, s, step))
  {
  }

  lemma FreshKept(u: Setup, s: State, step: Step)
    requires Exclusive(s) && Fresh(s) && Enabled(u, s, step)
    ensures Fresh(Next(u, s, step))
  {
    if step.Send? || step.Lost? || step.Accepted? || step.WriteFile? {
      FreshInside(u, s, step);
    } else {
      FreshOutside(u, s, step);
    }
  }

  lemma FreshOutside(u: Setup, s: State, step: Step)
    requires Fresh(s) && Enabled(u, s, step) && !(step.Send? || step.Lost? || step.Accepted? || step.WriteFile?)
    ensures Fresh(Next(u, s, step))
  {
    hide Current;
    var t := Next(u, s, step);
    if !step.Tick? { Unmoved(s, t, step.c); }
  }

  /** The steps by which the one caller inside deals with the server and the file. */
  lemma FreshInside(u: Setup, s: State, step: Step)
    requires Exclusive(s) && Fresh(s) && Enabled(u, s, step)
    requires step.Send? || step.Lost? || step.Accepted? || step.WriteFile?
    ensures Fresh(Next(u, s, step))
  {
    var t, c := Next(u, s, step), step.c;
    OnlyHolder(s, c);
    hide Exclusive;
    forall d | d in t.callers && d != c ensures d in s.callers && t.callers[d] == s.callers[d] && !HoldsLock(t.callers[d]) {
    }
    if !step.WriteFile? { assert forall d :: d in s.callers ==> !s.callers[d].Replied?; }
    if step.Accepted? { assert t.callers[c].Replied?; }
  }

  /** A step that moves one caller, not into or out of Replied, and leaves file and server alone. */
  lemma Unmoved(s: State, t: State, c: nat)
    requires Fresh(s) && c in t.callers && t.callers == s.callers[c := t.callers[c]]
    requires t.file == s.file && t.newest == s.newest && t.behind == s.behind && t.requests == s.requests
    requires InStep(t.callers[c], t.file, t.newest, t.behind) && !t.callers[c].Replied?
    requires c in s.callers ==> !s.callers[c].Replied?
    ensures Fresh(t)
  {
    if forall d :: d in t.callers ==> !t.callers[d].Replied? {
      forall d | d in s.callers ensures !s.callers[d].Replied? {
        assert d in t.callers;
      }
    }
  }

  ghost predicate Reaches(u: Setup, s: State, steps: seq<Step>, end: State)
    decreases |steps|
  {
    if steps == [] then end == s else Enabled(u, s, steps[0]) && Reaches(u, Next(u, s, steps[0]), steps[1..], end)
  }

  /** A broker fleet at rest, its file holding the newest token. */
  predicate Resting(s: State) {
    s.callers == map[] && s.mutex == map[] && s.lock.None? && s.requests == [] && !s.behind &&
    s.accepted == 0 && s.refused == 0 && s.file.refresh == Some(s.newest)
  }

  lemma {:induction false} RunKeepsInv(u: Setup, s: State, steps: seq<Step>, end: State)
    requires Inv(u, s) && Reaches(u, s, steps, end) && Excluded(u)
    ensures Inv(u, end)
    decreases |steps|
  {
    hide Owned, Exclusive, Fresh, Unlost, Enabled, Next;
    if steps != [] {
      OwnedIsExclusive(u, s);
      OwnedKept(u, s, steps[0]);
      FreshKept(u, s, steps[0]);
      UnlostKept(u, s, steps[0]);
      RunKeepsInv(u, Next(u, s, steps[0]), steps[1..], end);
    }
  }

  /**
   In every interleaving with exclusion, losses or not, a request carries a replaced token if and
   only if the last rotating grant before it was lost.
   */
  lemma RequestsExactly(u: Setup, s: State, steps: seq<Step>, end: State)
    requires Resting(s) && Reaches(u, s, steps, end) && Excluded(u)
    ensures CarryExactly(end) && Exclusive(end)
  {
    hide Reaches;
    RunKeepsInv(u, s, steps, end);
    OwnedIsExclusive(u, end);
  }

  /**
   In every interleaving, each refresh request carries the newest token the server issued, and
   while it is out that token stays the newest.
   */
  lemma RequestsCarryNewest(u: Setup, s: State, steps: seq<Step>, end: State)
    requires Resting(s) && Reaches(u, s, steps, end) && Careful(u)
    ensures CarryNewest(end) && Exclusive(end)
    ensures forall c :: c in end.callers && end.callers[c].Sent? ==> end.callers[c].doc.refresh == Some(end.newest)
  {
    hide Reaches;
    RunKeepsInv(u, s, steps, end);
    OwnedIsExclusive(u, end);
  }

  // ----- a burst over one expired token -----

  /** A burst: the clock stays below `until`, and every new token outlives `until` by the skew. */
  ghost predicate Burst(u: Setup, steps: seq<Step>, until: int) {
    forall i :: 0 <= i < |steps| ==>
      (steps[i].Tick? ==> steps[i].time <= until) &&
      (steps[i].Accepted? ==> steps[i].expires > until + u.skew)
  }

  ghost predicate Out(s: State) {
    exists c :: c in s.callers && s.callers[c].Sent?
  }

  /** At most one refresh was accepted, and from then on the file is or is about to be fresh. */
  ghost predicate Once(u: Setup, s: State, until: int) {
    && s.clock <= until
    && s.accepted <= 1
    && |s.requests| == s.accepted + s.refused + (if Out(s) then 1 else 0)
    && (forall c :: c in s.callers && s.callers[c].Replied? ==> s.callers[c].doc.expires > until + u.skew)
    && (forall c :: c in s.callers && s.callers[c].Returned? ==> s.callers[c].expires > until + u.skew)
    && (s.accepted == 0 ==> s.file.expires <= s.clock + u.skew)
    && (s.accepted == 0 ==> forall c :: c in s.callers ==> !s.callers[c].Replied? && !s.callers[c].Returned?)
    && (s.accepted == 1 && s.file.expires <= until + u.skew ==>
          exists c :: c in s.callers && s.callers[c].Replied?)
    && (s.accepted == 1 ==> forall c :: c in s.callers ==> !s.callers[c].Refreshing? && !s.callers[c].Sent?)
  }

  lemma OnceKept(u: Setup, s: State, step: Step, until: int)
    requires Exclusive(s) && Once(u, s, until) && Enabled(u, s, step) && u.reliable
    requires step.Tick? ==> step.time <= until
    requires step.Accepted? ==> step.expires > until + u.skew
    ensures Once(u, Next(u, s, step), until)
  {
    hide Exclusive, Once, Next;
    match step
    case Tick(time) => OnceLater(u, s, time, until);
    case Send(_) => OnceInside(u, s, step, until);
    case Refused(_) => OnceInside(u, s, step, until);
    case Accepted(_, _, _) => OnceInside(u, s, step, until);
    case WriteFile(_) => OnceInside(u, s, step, until);
    case ReadFile(c) => OnceRead(u, s, c, until);
    case _ => OnceOutside(u, s, step, until);
  }

  lemma OnceLater(u: Setup, s: State, time: int, until: int)
    requires Once(u, s, until) && s.clock <= time <= until
    ensures Once(u, Next(u, s, Tick(time)), until)
  {
    assert Out(s.(clock := time)) == Out(s);
  }

  lemma OnceRead(u: Setup, s: State, c: nat, until: int)
    requires Exclusive(s) && Once(u, s, until) && Enabled(u, s, ReadFile(c))
    ensures Once(u, Next(u, s, ReadFile(c)), until)
  {
    OnlyHolder(s, c);
    OnceUnmoved(u, s, Next(u, s, ReadFile(c)), c, until);
  }

  lemma OnceOutside(u: Setup, s: State, step: Step, until: int)
    requires Once(u, s, until) && Enabled(u, s, step)
    requires step.Call? || step.TakeMutex? || step.TakeLock? || step.GiveUp?
    ensures Once(u, Next(u, s, step), until)
  {
    OnceUnmoved(u, s, Next(u, s, step), step.c, until);
  }

  lemma OnceInside(u: Setup, s: State, step: Step, until: int)
    requires Exclusive(s) && Once(u, s, until) && Enabled(u, s, step)
    requires step.Send? || step.Refused? || step.Accepted? || step.WriteFile?
    requires step.Accepted? ==> step.expires > until + u.skew
    ensures Once(u, Next(u, s, step), until)
  {
    var t, c := Next(u, s, step), step.c;
    OnlyHolder(s, c);
    hide Exclusive;
    assert s.callers[c].Sent? <==> Out(s);
    assert t.callers[c].Sent? <==> Out(t);
    if step.Accepted? { assert t.callers[c].Replied?; }
  }

  lemma OnlyHolder(s: State, c: nat)
    requires Exclusive(s) && c in s.callers && HoldsLock(s.callers[c])
    ensures forall d :: d in s.callers && HoldsLock(s.callers[d]) ==> d == c
  {
  }

  lemma OnceUnmoved(u: Setup, s: State, t: State, c: nat, until: int)
    requires Once(u, s, until) && c in t.callers && t.callers == s.callers[c := t.callers[c]]
    requires t.clock == s.clock && t.file == s.file && t.requests == s.requests
    requires t.accepted == s.accepted && t.refused == s.refused
    requires !t.callers[c].Replied? && !t.callers[c].Sent?
    requires c in s.callers ==> !s.callers[c].Replied? && !s.callers[c].Sent?
    requires t.callers[c].Returned? ==> s.accepted != 0 && t.callers[c].expires > until + u.skew
    requires t.callers[c].Refreshing? ==> s.accepted == 0
    ensures Once(u, t, until)
  {
    if Out(s) {
      var d :| d in s.callers && s.callers[d].Sent?;
      assert t.callers[d].Sent?;
    }
    if t.accepted == 1 && t.file.expires <= until + u.skew {
      var d :| d in s.callers && s.callers[d].Replied?;
      assert t.callers[d].Replied?;
    }
  }

  lemma {:induction false} BurstRun(u: Setup, s: State, steps: seq<Step>, end: State, until: int)
    requires Inv(u, s) && Once(u, s, until) && Burst(u, steps, until) && Reaches(u, s, steps, end)
    requires Careful(u)
    ensures Inv(u, end) && Once(u, end, until)
    decreases |steps|
  {
    hide Owned, Exclusive, Fresh, Unlost, Enabled, Next, Once;
    if steps != [] {
      OwnedIsExclusive(u, s);
      OwnedKept(u, s, steps[0]);
      FreshKept(u, s, steps[0]);
      UnlostKept(u, s, steps[0]);
      OnceKept(u, s, steps[0], until);
      BurstRun(u, Next(u, s, steps[0]), steps[1..], end, until);
    }
  }

  /**
   A burst over one expired token refreshes at most once, exactly once if any caller succeeds,
   and sends no more than one request besides those that come to nothing. Every token handed out
   outlives the burst by the skew.
   */
  lemma BurstRefreshesOnce(u: Setup, s: State, steps: seq<Step>, end: State, until: int)
    requires Resting(s) && s.file.expires <= s.clock + u.skew && s.clock <= until
    requires Burst(u, steps, until) && Reaches(u, s, steps, end) && Careful(u)
    ensures end.accepted <= 1 && |end.requests| <= end.refused + 1
    ensures forall c :: c in end.callers && end.callers[c].Returned? ==> end.callers[c].expires > until + u.skew
    ensures (exists c :: c in end.callers && end.callers[c].Returned?) ==> end.accepted == 1
  {
    hide Burst, Reaches;
    BurstRun(u, s, steps, end, until);
  }

  // ----- without a lock, or with losses -----

  /** Any two processes and no lock: the second refresh goes out with a token already replaced. */
  lemma StaleWithoutLock(u: Setup, c: nat, d: nat) returns (s: State, steps: seq<Step>, end: State)
    requires !u.lockWorks && u.process(c) != u.process(d)
    ensures Resting(s) && Reaches(u, s, steps, end) && !CarryNewest(end)
  {
    hide Reaches;
    s := State(0, Doc(u.skew, Some(0)), map[], None, map[], 0, false, [], 0, 0);
    steps, end := [], s;
    ReachesNothing(u, s);
    steps, end := UpToReading(u, s, steps, end, c);
    steps, end := UpToReading(u, s, steps, end, d);
    steps, end := Extend(u, s, steps, end, Send(c));
    steps, end := Extend(u, s, steps, end, Accepted(c, true, 1));
    steps, end := Extend(u, s, steps, end, Send(d));
    assert end.requests[1].token == 0 && end.requests[1].newest == 1;
  }

  /** A caller that finds nothing in its way gets as far as reading an expired document. */
  lemma UpToReading(u: Setup, s: State, steps: seq<Step>, mid: State, c: nat) returns (more: seq<Step>, end: State)
    requires Reaches(u, s, steps, mid) && (c !in mid.callers || mid.callers[c].Gone?)
    requires u.process(c) !in mid.mutex && (u.lockWorks ==> mid.lock.None?)
    requires mid.file.expires <= mid.clock + u.skew && mid.file.refresh.Some?
    ensures Reaches(u, s, more, end)
    ensures end == mid.(callers := mid.callers[c := Refreshing(mid.file)], lock := Some(c),
                        mutex := mid.mutex[u.process(c) := c])
  {
    hide Reaches;
    more, end := Extend(u, s, steps, mid, Call(c));
    more, end := Extend(u, s, more, end, TakeMutex(c));
    more, end := Extend(u, s, more, end, TakeLock(c));
    more, end := Extend(u, s, more, end, ReadFile(c));
  }

  /** One caller whose granted refresh is lost: its next one goes out with the token that was replaced. */
  lemma StaleAfterLoss(u: Setup, c: nat) returns (s: State, steps: seq<Step>, end: State)
    requires !u.reliable
    ensures Resting(s) && Reaches(u, s, steps, end) && !CarryNewest(end)
  {
    hide Reaches;
    s := State(0, Doc(u.skew, Some(0)), map[], None, map[], 0, false, [], 0, 0);
    steps, end := [], s;
    ReachesNothing(u, s);
    steps, end := UpToReading(u, s, steps, end, c);
    steps, end := Extend(u, s, steps, end, Send(c));
    steps, end := Extend(u, s, steps, end, Lost(c, true));
    steps, end := UpToReading(u, s, steps, end, c);
    steps, end := Extend(u, s, steps, end, Send(c));
    assert end.requests[1].token == 0 && end.requests[1].newest == 1;
  }

  /** Every request carries the newest token, in every interleaving, exactly if refreshes are careful. */
  lemma NewestExactly(u: Setup)
    ensures (forall s, steps, end :: Resting(s) && Reaches(u, s, steps, end) ==> CarryNewest(end)) <==> Careful(u)
  {
    hide Reaches, Resting, CarryNewest;
    if Careful(u) {
      forall s, steps, end | Resting(s) && Reaches(u, s, steps, end) ensures CarryNewest(end) {
        RequestsCarryNewest(u, s, steps, end);
      }
    } else if !u.reliable {
      var s, steps, end := StaleAfterLoss(u, 0);
    } else {
      var c: nat, d: nat :| u.process(c) != u.process(d);
      var s, steps, end := StaleWithoutLock(u, c, d);
    }
  }

  lemma ReachesNothing(u: Setup, s: State)
    ensures Reaches(u, s, [], s)
  {
  }

  lemma Extend(u: Setup, s: State, steps: seq<Step>, end: State, step: Step) returns (more: seq<Step>, next: State)
    requires Reaches(u, s, steps, end) && Enabled(u, end, step)
    ensures more == steps + [step] && next == Next(u, end, step) && Reaches(u, s, more, next)
  {
    more, next := steps + [step], Next(u, end, step);
    ReachesAppend(u, s, steps, end, step);
  }

  lemma {:induction false} ReachesAppend(u: Setup, s: State, steps: seq<Step>, end: State, step: Step)
    requires Reaches(u, s, steps, end) && Enabled(u, end, step)
    ensures Reaches(u, s, steps + [step], Next(u, end, step))
    decreases |steps|
  {
    hide Enabled, Next;
    if steps == [] {
      ReachesNothing(u, Next(u, s, step));
      assert ([] + [step])[1..] == [];
    } else {
      assert (steps + [step])[0] == steps[0] && (steps + [step])[1..] == steps[1..] + [step];
      ReachesAppend(u, Next(u, s, steps[0]), steps[1..], end, step);
    }
  }
}
