/**
 Shutdown (server.go): handlers arriving and leaving, drain calls, and serveHTTP waiting for
 them, as one state machine over their critical sections.
 */
module Drain {
  import opened Base

  /** Outcomes of the server's own calls that matter to serveHTTP. */
  datatype ServeError = ServerClosed | OtherServe
  datatype ShutdownError = NoError | DeadlineExceeded | OtherShutdown

  datatype Result = Clean | CleanupTimedOut | ServeFailed | ShutdownFailed

  /** Where serveHTTP stands. `stopped` holds the serve error once the listener is known to be down. */
  datatype Phase =
    | Serving
    | Stopping(stopped: Option<ServeError>)                       // about to call drain
    | ShuttingDown(stopped: Option<ServeError>)                   // inside server.Shutdown
    | AwaitingDone(stopped: Option<ServeError>)                   // shutdown ok: done or deadline
    | CleaningUp(stopped: Option<ServeError>, error: ShutdownError) // work cancelled: done or timer
    | Collecting(stopped: Option<ServeError>, error: ShutdownError) // done seen: fetch the serve error
    | Returned(result: Result)

  /**
   `active` is the code's counter and `running` the handlers it counts; `closes` counts the
   closes of done, of which a second would panic; `admitted` are all handlers ever let in.
   */
  datatype State = State(draining: bool, active: int, closes: nat, running: set<nat>, admitted: set<nat>,
                         phase: Phase)

  const INITIAL := State(false, 0, 0, {}, {}, Serving)

  datatype Step =
    | Arrive(h: nat)
    | Leave(h: nat)
    | DrainCall                              // by anyone
    | StopRequested
    | ServeEnded(error: ServeError)
    | DrainOwn
    | ShutdownEnded(outcome: ShutdownError)
    | DoneSeen
    | DeadlinePassed
    | TimerFired
    | Collect(error: ServeError)

  predicate DoneClosed(s: State) {
    s.closes > 0
  }

  predicate Enabled(s: State, step: Step) {
    match step
    case Arrive(h) => h !in s.admitted
    case Leave(h) => h in s.running
    case DrainCall => true
    case StopRequested => s.phase.Serving?
    case ServeEnded(_) => s.phase.Serving?
    case DrainOwn => s.phase.Stopping?
    case ShutdownEnded(_) => s.phase.ShuttingDown?
    case DoneSeen => (s.phase.AwaitingDone? || s.phase.CleaningUp?) && DoneClosed(s)
    case DeadlinePassed => s.phase.AwaitingDone?
    case TimerFired => s.phase.CleaningUp?
    case Collect(error) => s.phase.Collecting? && (s.phase.stopped.Some? ==> error == s.phase.stopped.value)
  }

  /** wrap's entry: refused while draining, else counted. */
  function Admit(s: State, h: nat): State {
    if s.draining then s
    else s.(active := s.active + 1, running := s.running + {h}, admitted := s.admitted + {h})
  }

  /** wrap's deferred exit. */
  function Release(s: State, h: nat): State {
    var active := s.active - 1;
    s.(active := active, running := s.running - {h},
       closes := if s.draining && active == 0 then s.closes + 1 else s.closes)
  }

  function BeginDrain(s: State): State {
    if s.draining then s
    else s.(draining := true, closes := if s.active == 0 then s.closes + 1 else s.closes)
  }

  function Verdict(stopped: ServeError, error: ShutdownError): Result {
    if stopped.OtherServe? then ServeFailed
    else if error.OtherShutdown? then ShutdownFailed
    else Clean
  }

  function Next(s: State, step: Step): State
    requires Enabled(s, step)
  {
    match step
    case Arrive(h) => Admit(s, h)
    case Leave(h) => Release(s, h)
    case DrainCall => BeginDrain(s)
    case StopRequested => s.(phase := Stopping(None))
    case ServeEnded(error) => s.(phase := Stopping(Some(error)))
    case DrainOwn => BeginDrain(s).(phase := ShuttingDown(s.phase.stopped))
    case ShutdownEnded(error) =>
      s.(phase := if error.NoError? then AwaitingDone(s.phase.stopped) else CleaningUp(s.phase.stopped, error))
    case DoneSeen =>
      s.(phase := Collecting(s.phase.stopped, if s.phase.CleaningUp? then s.phase.error else NoError))
    case DeadlinePassed => s.(phase := CleaningUp(s.phase.stopped, DeadlineExceeded))
    case TimerFired => s.(phase := Returned(CleanupTimedOut))
    case Collect(error) =>
      var stopped := if s.phase.stopped.Some? then s.phase.stopped.value else error;
      s.(phase := Returned(Verdict(stopped, s.phase.error)))
  }

  /** done is closed exactly when draining holds and nobody is active, and then exactly once. */
  predicate ClosedExactly(s: State) {
    s.closes == if s.draining && s.active == 0 then 1 else 0
  }

  predicate Counted(s: State) {
    s.active == |s.running| && s.running <= s.admitted
  }

  /** Past drain, serveHTTP is draining; past done, and in any return but a timeout, nobody runs. */
  predicate PhaseHonest(s: State) {
    match s.phase
    case Serving => true
    case Stopping(_) => true
    case ShuttingDown(_) => s.draining
    case AwaitingDone(_) => s.draining
    case CleaningUp(_, _) => s.draining
    case Collecting(_, _) => s.draining && s.running == {}
    case Returned(result) => s.draining && (result != CleanupTimedOut ==> s.running == {})
  }

  predicate Inv(s: State) {
    ClosedExactly(s) && Counted(s) && PhaseHonest(s)
  }

  lemma NextKeepsInv(s: State, step: Step)
    requires Inv(s) && Enabled(s, step)
    ensures Inv(Next(s, step))
    ensures s.draining ==> Next(s, step).draining && Next(s, step).admitted == s.admitted
  {
  }

  ghost predicate Reaches(s: State, steps: seq<Step>, end: State)
    decreases |steps|
  {
    if steps == [] then end == s else Enabled(s, steps[0]) && Reaches(Next(s, steps[0]), steps[1..], end)
  }

  lemma {:induction false} RunKeepsInv(s: State, steps: seq<Step>, end: State)
    requires Inv(s) && Reaches(s, steps, end)
    ensures Inv(end)
    ensures s.draining ==> end.draining && end.admitted == s.admitted
    decreases |steps|
  {
    hide Inv, Enabled, Next;
    if steps != [] {
      NextKeepsInv(s, steps[0]);
      RunKeepsInv(Next(s, steps[0]), steps[1..], end);
    }
  }

  /**
   Every interleaving of arrivals, exits, drain calls and serveHTTP's own steps, cut at any
   point `mid`: done closes once and exactly when it should, nobody is admitted after
   draining began, and serveHTTP returns only when no admitted handler is left, or says so.
   */
  lemma EveryInterleaving(before: seq<Step>, mid: State, after: seq<Step>, end: State)
    requires Reaches(INITIAL, before, mid) && Reaches(mid, after, end)
    ensures end.closes == if end.draining && end.running == {} then 1 else 0
    ensures mid.draining ==> end.draining && end.admitted == mid.admitted
    ensures DoneClosed(mid) ==> DoneClosed(end) && end.running == {}
    ensures end.phase.Returned? && end.phase.result != CleanupTimedOut ==> DoneClosed(end) && end.running == {}
  {
    hide Reaches;
    RunKeepsInv(INITIAL, before, mid);
    RunKeepsInv(mid, after, end);
    if DoneClosed(mid) { StaysEmpty(mid, after, end); }
  }

  // ----- what serveHTTP reports -----

  /** The serve error that a phase has seen, if any. */
  function Seen(phase: Phase): Option<ServeError> {
    match phase
    case Stopping(stopped) => stopped
    case ShuttingDown(stopped) => stopped
    case AwaitingDone(stopped) => stopped
    case CleaningUp(stopped, _) => stopped
    case Collecting(stopped, _) => stopped
    case _ => None
  }

  function ShutdownSeen(phase: Phase): ShutdownError {
    match phase
    case CleaningUp(_, error) => error
    case Collecting(_, error) => error
    case _ => NoError
  }

  /** The server stopped for another reason than being closed. */
  ghost predicate ServeBroke(phase: Phase, steps: seq<Step>) {
    Seen(phase) == Some(OtherServe) ||
    exists i :: 0 <= i < |steps| && (steps[i] == ServeEnded(OtherServe) || steps[i] == Collect(OtherServe))
  }

  /** Shutdown failed for another reason than its deadline. */
  ghost predicate ShutdownBroke(phase: Phase, steps: seq<Step>) {
    ShutdownSeen(phase).OtherShutdown? || exists i :: 0 <= i < |steps| && steps[i] == ShutdownEnded(OtherShutdown)
  }

  ghost predicate TimedOut(steps: seq<Step>) {
    exists i :: 0 <= i < |steps| && steps[i].TimerFired?
  }

  predicate Ignorable(step: Step) {
    step.Arrive? || step.Leave? || step.DrainCall?
  }

  /** How one more step in front changes what is known. */
  lemma BrokeStep(s: State, steps: seq<Step>)
    requires steps != [] && Enabled(s, steps[0])
    ensures var t := Next(s, steps[0]);
            && (!steps[0].TimerFired? && !steps[0].Collect? ==>
                  (ServeBroke(s.phase, steps) <==> ServeBroke(t.phase, steps[1..])) &&
                  (ShutdownBroke(s.phase, steps) <==> ShutdownBroke(t.phase, steps[1..])))
            && (TimedOut(steps) <==> steps[0].TimerFired? || TimedOut(steps[1..]))
  {
    var rest := steps[1..];
    assert forall i :: 0 <= i < |rest| ==> rest[i] == steps[i + 1];
    assert forall i :: 0 < i < |steps| ==> steps[i] == rest[i - 1];
  }

  /** After it has returned, serveHTTP takes no more steps. */
  lemma {:induction false} ReturnedStays(s: State, steps: seq<Step>, end: State)
    requires s.phase.Returned? && Reaches(s, steps, end)
    ensures end.phase == s.phase && forall i :: 0 <= i < |steps| ==> Ignorable(steps[i])
    decreases |steps|
  {
    if steps != [] {
      ReturnedStays(Next(s, steps[0]), steps[1..], end);
      assert forall i :: 0 < i < |steps| ==> steps[i] == steps[1..][i - 1];
    }
  }

  /**
   What serveHTTP returns: the timeout if the cleanup timer fired; else the serve error if the
   server broke; else the shutdown error if shutdown failed but for its deadline; else nothing.
   */
  lemma {:induction false} ResultExactly(s: State, steps: seq<Step>, end: State)
    requires !s.phase.Returned? && Reaches(s, steps, end) && end.phase.Returned?
    ensures var result := end.phase.result;
            && (result.CleanupTimedOut? <==> TimedOut(steps))
            && (!result.CleanupTimedOut? ==> (result.ServeFailed? <==> ServeBroke(s.phase, steps)))
            && (!result.CleanupTimedOut? ==>
                  (result.ShutdownFailed? <==> !ServeBroke(s.phase, steps) && ShutdownBroke(s.phase, steps)))
    decreases |steps|
  {
    hide ServeBroke, ShutdownBroke, TimedOut;
    var t := Next(s, steps[0]);
    BrokeStep(s, steps);
    if t.phase.Returned? {
      ReturnedStays(t, steps[1..], end);
      LastStep(s, steps);
    } else {
      ResultExactly(t, steps[1..], end);
    }
  }

  /** The step with which serveHTTP returns. */
  lemma LastStep(s: State, steps: seq<Step>)
    requires steps != [] && Enabled(s, steps[0]) && !s.phase.Returned? && Next(s, steps[0]).phase.Returned?
    requires forall i :: 0 <= i < |steps[1..]| ==> Ignorable(steps[1..][i])
    ensures TimedOut(steps) <==> steps[0].TimerFired?
    ensures steps[0].Collect? ==>
              (ServeBroke(s.phase, steps) <==> Seen(s.phase) == Some(OtherServe) || steps[0].error.OtherServe?) &&
              (ShutdownBroke(s.phase, steps) <==> ShutdownSeen(s.phase).OtherShutdown?)
  {
    assert forall i :: 0 < i < |steps| ==> steps[i] == steps[1..][i - 1];
  }

  /** Once done is closed no handler runs again. */
  lemma {:induction false} StaysEmpty(s: State, steps: seq<Step>, end: State)
    requires Inv(s) && s.draining && s.running == {} && Reaches(s, steps, end)
    ensures end.running == {} && end.draining
    decreases |steps|
  {
    if steps != [] {
      NextKeepsInv(s, steps[0]);
      StaysEmpty(Next(s, steps[0]), steps[1..], end);
    }
  }

  // ----- the object -----

  /**
   serverRequests: its fields, the handlers they stand for, and how far serveHTTP has got.
   Each method is one critical section, the step of the same kind.
   */
  class ServerRequests {
    var draining: bool
    var active: int
    var closes: nat
    ghost var running: set<nat>
    ghost var admitted: set<nat>
    ghost var phase: Phase

    constructor ()
      ensures View() == INITIAL && Inv(View())
    {
      draining, active, closes := false, 0, 0;
      running, admitted, phase := {}, {}, Serving;
    }

    ghost function View(): State
      reads this
    {
      State(draining, active, closes, running, admitted, phase)
    }

    /** The entry of a wrapped handler; `ok` is false when it answers 503 instead. */
    method Enter(h: nat) returns (ok: bool)
      requires Inv(View()) && Enabled(View(), Arrive(h))
      modifies this
      ensures View() == Next(old(View()), Arrive(h)) && Inv(View())
      ensures ok <==> h in running
    {
      NextKeepsInv(View(), Arrive(h));
      if draining { return false; }
      active := active + 1;
      running, admitted := running + {h}, admitted + {h};
      return true;
    }

    method Exit(h: nat)
      requires Inv(View()) && Enabled(View(), Leave(h))
      modifies this
      ensures View() == Next(old(View()), Leave(h)) && Inv(View())
    {
      NextKeepsInv(View(), Leave(h));
      active := active - 1;
      running := running - {h};
      if draining && active == 0 { closes := closes + 1; }
    }

    method Drain()
      requires Inv(View())
      modifies this
      ensures View() == Next(old(View()), DrainCall) && Inv(View())
      ensures draining && (closes == 1 <==> running == {})
    {
      NextKeepsInv(View(), DrainCall);
      if !draining {
        draining := true;
        if active == 0 { closes := closes + 1; }
      }
    }
  }
}
