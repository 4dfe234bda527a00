/** radio_session(), claim_exclusive_access() and RadioConnectionManager as steps of
  any number of threads (server.py, meshsrv/serial_port_supervisor.py,
  meshsrv/radio_manager.py).

  A session and a claim both take radio_lock, pause the listener, work, cool down and
  release the lock.  A session resumes the listener only if the radio is still
  available; a claim, which every serial adapter call makes, resumes it regardless.
  Releasing the radio to another program, reconnecting it and restarting the listener
  touch the same pause flag without holding that lock. */
module RadioSession {
  import opened Prelude

  // Manager modes.  "releasing" is split: ReleaseStarting has not paused the listener
  // yet, ReleasePausing has, ReleaseStopping waits for radio_lock inside
  // stop_listener(), ReleaseWaiting has had it and waits for the port, ReleaseFailing
  // has cleared the pause again.
  datatype Mode = Connected | ReleaseStarting | ReleasePausing | ReleaseStopping | ReleaseWaiting | ReleaseFailing
                | Released | Reconnecting | Errored

  // Where a thread is.  In a session: Admitted, the command was allowed and the pause
  // is about to be set; Clearing, the radio was found available and the pause is about
  // to be cleared.  In a claim: ClaimWaiting, for the lock; then the lock is held.
  datatype Pc = Outside
              | Locked | Admitted | Preparing | Working | Cooldown | Clearing
              | ClaimWaiting | ClaimLocked | ClaimPreparing | ClaimWorking | ClaimCooldown
              | Unlocking

  // Listener restarts by number: asked, about to stop the listener; stopping, waiting
  // for radio_lock inside stop_listener(); clears, about to clear the pause, as are
  // reconnects.
  datatype Sys = Sys(owner: Option<nat>, pcs: seq<Pc>, pause: bool, mode: Mode, identityOk: bool,
                     asked: nat, stopping: nat, clears: nat)

  datatype Step =
    | Acquire(t: nat)
    | AcquireTimesOut(t: nat)
    | AskPermission(t: nat)
    | SetPause(t: nat)
    | StopListener(t: nat)
    | PrepareRaises(t: nat)
    | PortWait(t: nat, free: bool)
    | BodyEnds(t: nat, raised: bool)
    | CooldownRaises(t: nat)
    | CheckAvailable(t: nat)
    | ClearPause(t: nat)
    | ClaimCalls(t: nat, asks: bool)
    | ClaimAcquires(t: nat)
    | ClaimPauses(t: nat)
    | ClaimRaises(t: nat)
    | ClaimPortWait(t: nat, free: bool)
    | ClaimBodyEnds(t: nat, raised: bool)
    | ClaimClears(t: nat)
    | Unlock(t: nat)
    | RestartAsks
    | RestartStops
    | RestartPasses
    | RestartRaises
    | RestartClears
    | ReleaseBegins
    | ReleasePauses
    | ReleaseStops
    | ReleasePasses
    | ReleaseSucceeds
    | ReleaseFails
    | ReleaseFailed
    | ReconnectBegins
    | ListenerStarts

  // commands_allowed() and is_released()
  predicate CommandsAllowed(mode: Mode) {
    mode == Connected || mode == Errored
  }

  predicate IsReleased(mode: Mode) {
    !CommandsAllowed(mode) && mode != Reconnecting
  }

  predicate Available(s: Sys) {
    s.identityOk && CommandsAllowed(s.mode)
  }

  predicate At(s: Sys, t: nat, pc: Pc) {
    t < |s.pcs| && s.pcs[t] == pc
  }

  function Goto(s: Sys, t: nat, pc: Pc): Sys
    requires t < |s.pcs|
  {
    s.(pcs := s.pcs[t := pc])
  }

  // A thread's own step in a session.
  function SessionNext(s: Sys, step: Step): Sys {
    match step
    case Acquire(t) =>
      if At(s, t, Outside) && s.owner.None? then Goto(s, t, Locked).(owner := Some(t)) else s
    case AskPermission(t) =>
      if At(s, t, Locked) then Goto(s, t, if CommandsAllowed(s.mode) then Admitted else Cooldown) else s
    case SetPause(t) => if At(s, t, Admitted) then Goto(s, t, Preparing).(pause := true) else s
    case PrepareRaises(t) => if At(s, t, Preparing) then Goto(s, t, Unlocking) else s
    case PortWait(t, free) => if At(s, t, Preparing) then Goto(s, t, if free then Working else Cooldown) else s
    case BodyEnds(t, raised) => if At(s, t, Working) then Goto(s, t, Cooldown) else s
    case CooldownRaises(t) => if At(s, t, Cooldown) then Goto(s, t, Unlocking) else s
    case CheckAvailable(t) =>
      if At(s, t, Cooldown) then Goto(s, t, if Available(s) then Clearing else Unlocking) else s
    case ClearPause(t) => if At(s, t, Clearing) then Goto(s, t, Unlocking).(pause := false) else s
    case _ => s
  }

  // A thread's own step in a claim, or at the end of either.
  function ClaimNext(s: Sys, step: Step): Sys {
    match step
    case StopListener(t) =>
      if At(s, t, Preparing) || At(s, t, ClaimPreparing) then s.(pause := true) else s
    case ClaimCalls(t, asks) =>
      if At(s, t, Outside) && (asks ==> Available(s)) then Goto(s, t, ClaimWaiting) else s
    case ClaimAcquires(t) =>
      if At(s, t, ClaimWaiting) && s.owner.None? then Goto(s, t, ClaimLocked).(owner := Some(t)) else s
    case ClaimPauses(t) => if At(s, t, ClaimLocked) then Goto(s, t, ClaimPreparing).(pause := true) else s
    case ClaimRaises(t) => if At(s, t, ClaimPreparing) then Goto(s, t, Unlocking) else s
    case ClaimPortWait(t, free) =>
      if At(s, t, ClaimPreparing) then Goto(s, t, if free then ClaimWorking else ClaimCooldown) else s
    case ClaimBodyEnds(t, raised) => if At(s, t, ClaimWorking) then Goto(s, t, ClaimCooldown) else s
    case ClaimClears(t) => if At(s, t, ClaimCooldown) then Goto(s, t, Unlocking).(pause := false) else s
    case Unlock(t) => if At(s, t, Unlocking) then Goto(s, t, Outside).(owner := None) else s
    case _ => s
  }

  predicate InSession(step: Step) {
    || step.Acquire? || step.AcquireTimesOut? || step.AskPermission? || step.SetPause? || step.PrepareRaises?
    || step.PortWait? || step.BodyEnds? || step.CooldownRaises? || step.CheckAvailable? || step.ClearPause?
  }

  // A step that is not enabled changes nothing, so every sequence of steps is a run.
  function Next(s: Sys, step: Step): Sys {
    match step
    case RestartAsks => if IsReleased(s.mode) then s else s.(asked := s.asked + 1)
    case RestartStops =>
      if s.asked > 0 then s.(pause := true, asked := s.asked - 1, stopping := s.stopping + 1) else s
    case RestartPasses =>
      if s.stopping > 0 && s.owner.None? then s.(stopping := s.stopping - 1, clears := s.clears + 1) else s
    case RestartRaises => if s.stopping > 0 then s.(stopping := s.stopping - 1) else s
    case RestartClears => if s.clears > 0 then s.(pause := false, clears := s.clears - 1) else s
    case ReleaseBegins => if CommandsAllowed(s.mode) then s.(mode := ReleaseStarting) else s
    case ReleasePauses => if s.mode == ReleaseStarting then s.(mode := ReleasePausing, pause := true) else s
    case ReleaseStops => if s.mode == ReleasePausing then s.(mode := ReleaseStopping, pause := true) else s
    case ReleasePasses => if s.mode == ReleaseStopping && s.owner.None? then s.(mode := ReleaseWaiting) else s
    case ReleaseSucceeds => if s.mode == ReleaseWaiting then s.(mode := Released) else s
    case ReleaseFails =>
      if s.mode == ReleasePausing || s.mode == ReleaseStopping || s.mode == ReleaseWaiting
      then s.(mode := ReleaseFailing, pause := false)
      else s
    case ReleaseFailed => if s.mode == ReleaseFailing then s.(mode := Errored) else s
    case ReconnectBegins =>
      if s.mode == Released || s.mode == Errored || s.mode == Reconnecting
      then s.(mode := Reconnecting, clears := s.clears + 1)
      else s
    case ListenerStarts =>
      if s.mode == Reconnecting || s.mode == Errored then s.(mode := Connected) else s
    case _ => if InSession(step) then SessionNext(s, step) else ClaimNext(s, step)
  }

  function Exec(s: Sys, steps: seq<Step>): Sys
    decreases |steps|
  {
    if steps == [] then s else Exec(Next(s, steps[0]), steps[1..])
  }

  function Init(threads: nat, identityOk: bool): Sys {
    Sys(None, seq(threads, _ => Outside), false, Connected, identityOk, 0, 0, 0)
  }

  // ------------------------------------------------------------------------ lock

  // Between taking radio_lock and releasing it.
  predicate Holds(pc: Pc) {
    pc != Outside && pc != ClaimWaiting
  }

  // The thread inside a session or a claim is the one owning the lock.
  ghost predicate LockInv(s: Sys) {
    && (s.owner.Some? ==> s.owner.value < |s.pcs|)
    && forall t :: 0 <= t < |s.pcs| ==> (Holds(s.pcs[t]) <==> s.owner == Some(t))
  }

  lemma SessionKeepsLock(s: Sys, step: Step)
    requires LockInv(s)
    ensures LockInv(SessionNext(s, step)) && |SessionNext(s, step).pcs| == |s.pcs|
  {}

  lemma ClaimKeepsLock(s: Sys, step: Step)
    requires LockInv(s)
    ensures LockInv(ClaimNext(s, step)) && |ClaimNext(s, step).pcs| == |s.pcs|
  {}

  lemma StepKeepsLock(s: Sys, step: Step)
    requires LockInv(s)
    ensures LockInv(Next(s, step)) && |Next(s, step).pcs| == |s.pcs|
  {
    SessionKeepsLock(s, step);
    ClaimKeepsLock(s, step);
  }

  lemma {:induction false} RunKeepsLock(s: Sys, steps: seq<Step>)
    requires LockInv(s)
    ensures LockInv(Exec(s, steps)) && |Exec(s, steps).pcs| == |s.pcs|
    decreases |steps|
  {
    if steps != [] {
      StepKeepsLock(s, steps[0]);
      RunKeepsLock(Next(s, steps[0]), steps[1..]);
    }
  }

  // Prepare, work and cooldown of two sessions or claims never overlap, and whoever
  // is in neither does not hold the lock, however its last one ended.
  lemma SessionsNeverOverlap(threads: nat, identityOk: bool, steps: seq<Step>)
    ensures var s := Exec(Init(threads, identityOk), steps);
            && |s.pcs| == threads
            && (forall t, u :: 0 <= t < u < threads ==> !Holds(s.pcs[t]) || !Holds(s.pcs[u]))
            && (forall t :: 0 <= t < threads && !Holds(s.pcs[t]) ==> s.owner != Some(t))
            && ((forall t :: 0 <= t < threads ==> !Holds(s.pcs[t])) ==> s.owner == None)
  {
    RunKeepsLock(Init(threads, identityOk), steps);
  }

  // Steps left, at most, before a thread that does its own steps has left.
  function Remaining(pc: Pc): nat {
    match pc
    case Outside => 0
    case Unlocking => 1
    case Clearing => 2
    case ClaimCooldown => 2
    case Cooldown => 3
    case ClaimWorking => 3
    case Working => 4
    case ClaimPreparing => 4
    case Preparing => 5
    case ClaimLocked => 5
    case Admitted => 6
    case ClaimWaiting => 6
    case Locked => 7
  }

  predicate OwnStep(step: Step, t: nat) {
    match step
    case AskPermission(u) => u == t
    case SetPause(u) => u == t
    case PrepareRaises(u) => u == t
    case PortWait(u, _) => u == t
    case BodyEnds(u, _) => u == t
    case CooldownRaises(u) => u == t
    case CheckAvailable(u) => u == t
    case ClearPause(u) => u == t
    case ClaimPauses(u) => u == t
    case ClaimRaises(u) => u == t
    case ClaimPortWait(u, _) => u == t
    case ClaimBodyEnds(u, _) => u == t
    case ClaimClears(u) => u == t
    case Unlock(u) => u == t
    case _ => false
  }

  // A step the owner can always take.
  function NextOwnStep(pc: Pc, t: nat): Step {
    match pc
    case Locked => AskPermission(t)
    case Admitted => SetPause(t)
    case Preparing => PortWait(t, true)
    case Working => BodyEnds(t, true)
    case Cooldown => CheckAvailable(t)
    case Clearing => ClearPause(t)
    case ClaimLocked => ClaimPauses(t)
    case ClaimPreparing => ClaimPortWait(t, true)
    case ClaimWorking => ClaimBodyEnds(t, true)
    case ClaimCooldown => ClaimClears(t)
    case _ => Unlock(t)
  }

  // What one step may do to the owner: nothing, or bring it nearer the end.
  predicate Advances(s: Sys, s': Sys, t: nat, own: bool)
    requires t < |s.pcs| == |s'.pcs|
  {
    && (s'.pcs[t] != s.pcs[t] ==> own && Remaining(s'.pcs[t]) < Remaining(s.pcs[t]))
    && (s'.pcs[t] == Outside ==> s'.owner == None)
    && s'.pcs[t] != ClaimWaiting
  }

  lemma SessionAdvances(s: Sys, t: nat, step: Step)
    requires LockInv(s) && s.owner == Some(t)
    ensures Advances(s, SessionNext(s, step), t, OwnStep(step, t))
  {}

  lemma ClaimAdvances(s: Sys, t: nat, step: Step)
    requires LockInv(s) && s.owner == Some(t)
    ensures Advances(s, ClaimNext(s, step), t, OwnStep(step, t))
  {}

  lemma OwnerHasStep(s: Sys, t: nat)
    requires LockInv(s) && s.owner == Some(t)
    ensures var own := NextOwnStep(s.pcs[t], t); OwnStep(own, t) && Next(s, own).pcs[t] != s.pcs[t]
  {}

  // The owner always has a step to take; each step it takes, whichever branch,
  // brings it nearer the end; nobody else moves it; and at the end the lock is free.
  lemma OwnerProgresses(s: Sys, t: nat, step: Step)
    requires LockInv(s) && s.owner == Some(t)
    ensures var own := NextOwnStep(s.pcs[t], t); OwnStep(own, t) && Next(s, own).pcs[t] != s.pcs[t]
    ensures |Next(s, step).pcs| == |s.pcs| && Advances(s, Next(s, step), t, OwnStep(step, t))
  {
    OwnerHasStep(s, t);
    StepKeepsLock(s, step);
    SessionAdvances(s, t, step);
    ClaimAdvances(s, t, step);
  }

  function PcOf(s: Sys, t: nat): Pc {
    if t < |s.pcs| then s.pcs[t] else Outside
  }

  // How often thread t moves in a run.
  function Moves(s: Sys, steps: seq<Step>, t: nat): nat
    decreases |steps|
  {
    if steps == [] then 0
    else (if PcOf(Next(s, steps[0]), t) != PcOf(s, t) then 1 else 0) + Moves(Next(s, steps[0]), steps[1..], t)
  }

  // Every exit path releases the lock: in any run, interleaved with anything, in
  // which the owner makes the moves it has left, it gets out and the lock is free.
  lemma {:induction false} EveryExitUnlocks(s: Sys, t: nat, steps: seq<Step>) returns (k: nat)
    requires LockInv(s) && s.owner == Some(t) && Moves(s, steps, t) >= Remaining(s.pcs[t])
    ensures k <= |steps|
    ensures var out := Exec(s, steps[..k]); out.owner.None? && PcOf(out, t) == Outside
    decreases |steps|
  {
    var s' := Next(s, steps[0]);
    OwnerProgresses(s, t, steps[0]);
    StepKeepsLock(s, steps[0]);
    if PcOf(s', t) == Outside {
      k := 1;
      assert steps[..1] == [steps[0]] && Exec(s', []) == s';
    } else {
      var rest := EveryExitUnlocks(s', t, steps[1..]);
      k := rest + 1;
      assert steps[..k][1..] == steps[1..][..rest] && steps[..k][0] == steps[0];
    }
  }

  // ----------------------------------------------------------------- pause flag

  predicate Pausing(pc: Pc) {
    || pc == Preparing || pc == Working || pc == Cooldown || pc == Clearing
    || pc == ClaimPreparing || pc == ClaimWorking || pc == ClaimCooldown
  }

  // While the radio stays available, a set pause has somebody who will clear it.
  ghost predicate PauseInv(s: Sys) {
    && LockInv(s) && Available(s)
    && (s.pause ==> s.stopping > 0 || s.clears > 0 || (s.owner.Some? && Pausing(s.pcs[s.owner.value])))
  }

  // No release or reconnect begins and nothing raises between a pause and its clear.
  predicate Ordinary(step: Step) {
    && !step.ReleaseBegins? && !step.ReconnectBegins?
    && !step.PrepareRaises? && !step.CooldownRaises? && !step.ClaimRaises? && !step.RestartRaises?
  }

  lemma SessionKeepsPause(s: Sys, step: Step)
    requires PauseInv(s) && Ordinary(step)
    ensures PauseInv(SessionNext(s, step))
  {
    SessionKeepsLock(s, step);
  }

  lemma ClaimKeepsPause(s: Sys, step: Step)
    requires PauseInv(s) && Ordinary(step)
    ensures PauseInv(ClaimNext(s, step))
  {
    ClaimKeepsLock(s, step);
  }

  lemma StepKeepsPause(s: Sys, step: Step)
    requires PauseInv(s) && Ordinary(step)
    ensures PauseInv(Next(s, step))
  {
    SessionKeepsPause(s, step);
    ClaimKeepsPause(s, step);
  }

  lemma {:induction false} RunKeepsPause(s: Sys, steps: seq<Step>)
    requires PauseInv(s) && forall i :: 0 <= i < |steps| ==> Ordinary(steps[i])
    ensures PauseInv(Exec(s, steps))
    decreases |steps|
  {
    if steps != [] {
      StepKeepsPause(s, steps[0]);
      RunKeepsPause(Next(s, steps[0]), steps[1..]);
    }
  }

  // While the radio stays available, a free lock with no listener restart under way
  // means a clear pause flag.
  lemma LockFreeMeansNotPaused(threads: nat, steps: seq<Step>)
    requires forall i :: 0 <= i < |steps| ==> Ordinary(steps[i])
    ensures var s := Exec(Init(threads, true), steps);
            s.owner.None? && s.stopping == 0 && s.clears == 0 ==> !s.pause
  {
    RunKeepsPause(Init(threads, true), steps);
  }

  // Each excluded exception does leave the listener paused with the lock free:
  // prepare_radio_command() runs outside the inner try, the second wait for the port
  // runs before the clear, and a claim prepares before its try.
  lemma PrepareExceptionLeavesPause(s: Sys, t: nat)
    requires LockInv(s) && At(s, t, Preparing) && s.pause
    ensures LeavesPause(s, Next(Next(s, PrepareRaises(t)), Unlock(t)))
  {}

  lemma CooldownExceptionLeavesPause(s: Sys, t: nat)
    requires LockInv(s) && At(s, t, Cooldown) && s.pause
    ensures LeavesPause(s, Next(Next(s, CooldownRaises(t)), Unlock(t)))
  {}

  lemma ClaimExceptionLeavesPause(s: Sys, t: nat)
    requires LockInv(s) && At(s, t, ClaimPreparing) && s.pause
    ensures LeavesPause(s, Next(Next(s, ClaimRaises(t)), Unlock(t)))
  {}

  predicate LeavesPause(s: Sys, s': Sys) {
    s'.owner.None? && s'.pause && s'.stopping == s.stopping && s'.clears == s.clears && Available(s') == Available(s)
  }

  // --------------------------------------------------------------------- release

  // From the moment stop_listener() has set the pause for the release.
  predicate InRelease(mode: Mode) {
    mode == ReleaseStopping || mode == ReleaseWaiting || mode == Released
  }

  predicate IsClaim(pc: Pc) {
    pc == ClaimWaiting || pc == ClaimLocked || pc == ClaimPreparing || pc == ClaimWorking || pc == ClaimCooldown
  }

  // Somebody who will clear the pause without asking again: a session past its
  // availability check, an adapter call from before it has the lock until it clears,
  // a listener restart or a reconnect already under way.
  ghost predicate Lifter(s: Sys) {
    || s.asked > 0 || s.stopping > 0 || s.clears > 0
    || exists t :: 0 <= t < |s.pcs| && (s.pcs[t] == Clearing || IsClaim(s.pcs[t]))
  }

  // The release lasts and no adapter call that does not ask begins during it.
  predicate ReleaseLasts(s: Sys, steps: seq<Step>)
    decreases |steps|
  {
    InRelease(s.mode)
    && (steps == [] || (!UngatedCall(steps[0]) && ReleaseLasts(Next(s, steps[0]), steps[1..])))
  }

  predicate UngatedCall(step: Step) {
    step.ClaimCalls? && !step.asks
  }

  // No thread past the point of asking.
  ghost predicate AllAsk(s: Sys) {
    forall t :: 0 <= t < |s.pcs| ==> s.pcs[t] != Clearing && !IsClaim(s.pcs[t])
  }

  lemma SessionStillAsks(s: Sys, step: Step)
    requires AllAsk(s) && InRelease(s.mode) && s.pause
    ensures AllAsk(SessionNext(s, step)) && SessionNext(s, step).pause
  {}

  lemma ClaimStillAsks(s: Sys, step: Step)
    requires AllAsk(s) && InRelease(s.mode) && s.pause && !UngatedCall(step)
    ensures AllAsk(ClaimNext(s, step)) && ClaimNext(s, step).pause
  {}

  lemma NoNewLifter(s: Sys, step: Step)
    requires s.pause && !Lifter(s) && InRelease(s.mode) && InRelease(Next(s, step).mode) && !UngatedCall(step)
    ensures Next(s, step).pause && !Lifter(Next(s, step))
  {
    SessionStillAsks(s, step);
    ClaimStillAsks(s, step);
  }

  lemma {:induction false} ReleaseKeepsPause(s: Sys, steps: seq<Step>)
    requires s.pause && !Lifter(s) && ReleaseLasts(s, steps)
    ensures Exec(s, steps).pause && !Lifter(Exec(s, steps))
    decreases |steps|
  {
    if steps != [] {
      NoNewLifter(s, steps[0]);
      ReleaseKeepsPause(Next(s, steps[0]), steps[1..]);
    }
  }

  ghost predicate PauseHolds(s: Sys, steps: seq<Step>) {
    ReleaseLasts(s, steps) ==> Exec(s, steps).pause
  }

  ghost predicate EndsUnpaused(s: Sys, steps: seq<Step>) {
    ReleaseLasts(s, steps) && Exec(s, steps).mode == Released && !Exec(s, steps).pause
  }

  // Some continuation lets the release finish with the listener unpaused.
  ghost predicate CanLift(s: Sys) {
    exists steps :: EndsUnpaused(s, steps)
  }

  lemma ByStep(s: Sys, step: Step)
    requires InRelease(s.mode) && !UngatedCall(step) && CanLift(Next(s, step))
    ensures CanLift(s)
  {
    var rest :| EndsUnpaused(Next(s, step), rest);
    assert ([step] + rest)[1..] == rest;
    assert EndsUnpaused(s, [step] + rest);
  }

  // Once unpaused, with the owner about to unlock, the release finishes so.
  lemma FinishesUnpaused(s: Sys)
    requires LockInv(s) && InRelease(s.mode) && !s.pause
    requires s.owner.Some? ==> s.pcs[s.owner.value] == Unlocking
    ensures CanLift(s)
    decreases if s.owner.Some? then 1 else 0,
              if s.mode == ReleaseStopping then 2 else if s.mode == ReleaseWaiting then 1 else 0
  {
    if s.owner.Some? {
      StepKeepsLock(s, Unlock(s.owner.value));
      FinishesUnpaused(Next(s, Unlock(s.owner.value)));
      ByStep(s, Unlock(s.owner.value));
    } else if s.mode == ReleaseStopping {
      FinishesUnpaused(Next(s, ReleasePasses));
      ByStep(s, ReleasePasses);
    } else if s.mode == ReleaseWaiting {
      FinishesUnpaused(Next(s, ReleaseSucceeds));
      ByStep(s, ReleaseSucceeds);
    } else {
      assert Exec(s, []) == s;
      assert EndsUnpaused(s, []);
    }
  }

  lemma OwnStepIsLocal(s: Sys, t: nat)
    requires t < |s.pcs| && Holds(s.pcs[t])
    ensures var own := NextOwnStep(s.pcs[t], t);
            var s' := if InSession(own) then SessionNext(s, own) else ClaimNext(s, own);
            && s'.mode == s.mode && s'.asked == s.asked && s'.stopping == s.stopping && s'.clears == s.clears
            && |s'.pcs| == |s.pcs| && (s'.owner == s.owner || s'.owner.None?)
            && forall u :: 0 <= u < |s.pcs| && u != t ==> s'.pcs[u] == s.pcs[u]
  {}

  // The owner's next step.  It leaves the mode, the restarts and everybody else's
  // place alone.
  lemma OwnerMoves(s: Sys) returns (own: Step)
    requires LockInv(s) && s.owner.Some?
    ensures var t := s.owner.value; var s' := Next(s, own);
            && own == NextOwnStep(s.pcs[t], t) && !UngatedCall(own) && LockInv(s')
            && s'.mode == s.mode && s'.asked == s.asked && s'.stopping == s.stopping && s'.clears == s.clears
            && |s'.pcs| == |s.pcs| && Remaining(s'.pcs[t]) < Remaining(s.pcs[t])
            && (s'.owner == s.owner || s'.owner.None?)
            && forall u :: 0 <= u < |s.pcs| && u != t ==> s'.pcs[u] == s.pcs[u]
  {
    var t := s.owner.value;
    own := NextOwnStep(s.pcs[t], t);
    assert Next(s, own) == if InSession(own) then SessionNext(s, own) else ClaimNext(s, own);
    OwnStepIsLocal(s, t);
    OwnerProgresses(s, t, own);
    StepKeepsLock(s, own);
  }

  function OwnerRemaining(s: Sys): nat {
    if s.owner.Some? then Remaining(PcOf(s, s.owner.value)) else 0
  }

  lemma {:induction false} RestartLifts(s: Sys)
    requires LockInv(s) && InRelease(s.mode) && (s.stopping > 0 || s.clears > 0)
    ensures CanLift(s)
    decreases OwnerRemaining(s), s.stopping
  {
    if s.owner.Some? {
      var own := OwnerMoves(s);
      RestartLifts(Next(s, own));
      ByStep(s, own);
    } else if s.clears > 0 {
      FinishesUnpaused(Next(s, RestartClears));
      ByStep(s, RestartClears);
    } else {
      RestartLifts(Next(s, RestartPasses));
      ByStep(s, RestartPasses);
    }
  }

  lemma {:induction false} ClearingLifts(s: Sys, t: nat)
    requires LockInv(s) && InRelease(s.mode) && At(s, t, Clearing)
    ensures CanLift(s)
  {
    StepKeepsLock(s, ClearPause(t));
    FinishesUnpaused(Next(s, ClearPause(t)));
    ByStep(s, ClearPause(t));
  }

  lemma {:induction false} ClaimLifts(s: Sys, t: nat)
    requires LockInv(s) && InRelease(s.mode) && t < |s.pcs| && IsClaim(s.pcs[t])
    ensures CanLift(s)
    decreases Remaining(s.pcs[t]), OwnerRemaining(s)
  {
    if s.pcs[t] == ClaimCooldown {
      StepKeepsLock(s, ClaimClears(t));
      FinishesUnpaused(Next(s, ClaimClears(t)));
      ByStep(s, ClaimClears(t));
    } else if s.owner.Some? {
      var own := OwnerMoves(s);
      ClaimLifts(Next(s, own), t);
      ByStep(s, own);
    } else {
      StepKeepsLock(s, ClaimAcquires(t));
      ClaimLifts(Next(s, ClaimAcquires(t)), t);
      ByStep(s, ClaimAcquires(t));
    }
  }

  lemma LifterLifts(s: Sys)
    requires LockInv(s) && InRelease(s.mode) && Lifter(s)
    ensures CanLift(s)
  {
    if s.stopping > 0 || s.clears > 0 {
      RestartLifts(s);
    } else if s.asked > 0 {
      RestartLifts(Next(s, RestartStops));
      ByStep(s, RestartStops);
    } else {
      var t :| 0 <= t < |s.pcs| && (s.pcs[t] == Clearing || IsClaim(s.pcs[t]));
      if s.pcs[t] == Clearing { ClearingLifts(s, t); } else { ClaimLifts(s, t); }
    }
  }

  // A release keeps the listener paused over all continuations, whatever sessions
  // are refused meanwhile, if and only if nobody was already past the point of asking
  // when it paused; and if somebody was, it can finish with the listener unpaused.
  lemma ReleasePauseSafeIff(s: Sys)
    requires LockInv(s) && InRelease(s.mode) && s.pause
    ensures !Lifter(s) <==> forall steps :: PauseHolds(s, steps)
    ensures Lifter(s) <==> CanLift(s)
  {
    if !Lifter(s) {
      forall steps ensures PauseHolds(s, steps) && !EndsUnpaused(s, steps) {
        if ReleaseLasts(s, steps) { ReleaseKeepsPause(s, steps); }
      }
    } else {
      LifterLifts(s);
      var steps :| EndsUnpaused(s, steps);
      assert !PauseHolds(s, steps);
    }
  }

  // An adapter call that does not ask whether the radio is available takes the pause
  // from a release that was safe until then.
  lemma UngatedCallLiftsRelease(s: Sys, t: nat)
    requires LockInv(s) && InRelease(s.mode) && s.pause && At(s, t, Outside)
    ensures CanLift(Next(s, ClaimCalls(t, false)))
  {
    StepKeepsLock(s, ClaimCalls(t, false));
    ClaimLifts(Next(s, ClaimCalls(t, false)), t);
  }

  // One such race: the release begins between a session's availability check and its
  // clear, waits for that session's lock, and finishes with the listener unpaused.
  lemma SessionCanLiftRelease(s: Sys, t: nat)
    requires LockInv(s) && At(s, t, Cooldown) && Available(s)
    ensures var paused := Exec(s, [CheckAvailable(t), ReleaseBegins, ReleasePauses, ReleaseStops]);
            var ended := Exec(paused, [ClearPause(t), Unlock(t), ReleasePasses, ReleaseSucceeds]);
            && paused.mode == ReleaseStopping && paused.pause && paused.owner == Some(t)
            && ended.mode == Released && !ended.pause
  {
    SessionIsOvertaken(s, t);
    var paused := Exec(s, [CheckAvailable(t), ReleaseBegins, ReleasePauses, ReleaseStops]);
    SessionThenClears(paused, t);
  }

  lemma SessionIsOvertaken(s: Sys, t: nat)
    requires LockInv(s) && At(s, t, Cooldown) && Available(s)
    ensures var paused := Exec(s, [CheckAvailable(t), ReleaseBegins, ReleasePauses, ReleaseStops]);
            paused.mode == ReleaseStopping && paused.pause && paused.owner == Some(t) && At(paused, t, Clearing)
  {
    ExecFour(s, [CheckAvailable(t), ReleaseBegins, ReleasePauses, ReleaseStops]);
  }

  lemma ClearAndUnlock(s: Sys, t: nat)
    requires At(s, t, Clearing)
    ensures var free := Next(Next(s, ClearPause(t)), Unlock(t));
            free.owner.None? && !free.pause && free.mode == s.mode
  {}

  lemma PassAndSucceed(s: Sys)
    requires s.owner.None? && s.mode == ReleaseStopping
    ensures Next(Next(s, ReleasePasses), ReleaseSucceeds) == s.(mode := Released)
  {}

  lemma SessionThenClears(s: Sys, t: nat)
    requires s.mode == ReleaseStopping && At(s, t, Clearing)
    ensures var ended := Exec(s, [ClearPause(t), Unlock(t), ReleasePasses, ReleaseSucceeds]);
            ended.mode == Released && !ended.pause
  {
    var steps := [ClearPause(t), Unlock(t), ReleasePasses, ReleaseSucceeds];
    ExecFour(s, steps);
    ClearAndUnlock(s, t);
    PassAndSucceed(Next(Next(s, steps[0]), steps[1]));
  }

  lemma ExecFour(s: Sys, steps: seq<Step>)
    requires |steps| == 4
    ensures Exec(s, steps) == Next(Next(Next(Next(s, steps[0]), steps[1]), steps[2]), steps[3])
  {
    var one := Next(s, steps[0]);
    var two := Next(one, steps[1]);
    var three := Next(two, steps[2]);
    assert Exec(one, steps[1..]) == Exec(two, steps[2..]) by { assert steps[1..][1..] == steps[2..]; }
    assert Exec(two, steps[2..]) == Exec(three, steps[3..]) by { assert steps[2..][1..] == steps[3..]; }
    assert Exec(three, steps[3..]) == Next(three, steps[3]) by { assert steps[3..][1..] == []; }
  }

  // ------------------------------------------------------------- who gets to work

  // Thread t is at pc at some point of the run.
  predicate Reaches(s: Sys, steps: seq<Step>, t: nat, pc: Pc)
    decreases |steps|
  {
    PcOf(s, t) == pc || (steps != [] && Reaches(Next(s, steps[0]), steps[1..], t, pc))
  }

  // Thread t does not leave before the end of the run.
  predicate StaysIn(s: Sys, steps: seq<Step>, t: nat)
    decreases |steps|
  {
    steps == [] || (PcOf(s, t) != Outside && StaysIn(Next(s, steps[0]), steps[1..], t))
  }

  // The manager's mode when thread t, holding the lock, asked for permission.
  function AskedIn(s: Sys, steps: seq<Step>, t: nat): Option<Mode>
    decreases |steps|
  {
    if steps == [] then None
    else if At(s, t, Locked) && steps[0] == AskPermission(t) then Some(s.mode)
    else AskedIn(Next(s, steps[0]), steps[1..], t)
  }

  // What the wait for the port said to thread t while it prepared, in a session or in
  // a claim.
  function PortFound(s: Sys, steps: seq<Step>, t: nat): Option<bool>
    decreases |steps|
  {
    if steps == [] then None
    else if At(s, t, Preparing) && steps[0].PortWait? && steps[0].t == t then Some(steps[0].free)
    else if At(s, t, ClaimPreparing) && steps[0].ClaimPortWait? && steps[0].t == t then Some(steps[0].free)
    else PortFound(Next(s, steps[0]), steps[1..], t)
  }

  predicate IsEnding(pc: Pc) {
    pc == Outside || pc == Cooldown || pc == Clearing || pc == Unlocking || pc == ClaimCooldown
  }

  // From its cooldown on, a thread neither prepares nor works any more.
  lemma {:induction false} EndingOnlyEnds(s: Sys, steps: seq<Step>, t: nat)
    requires StaysIn(s, steps, t) && IsEnding(PcOf(s, t))
    ensures forall pc :: !IsEnding(pc) ==> !Reaches(s, steps, t, pc)
    ensures PortFound(s, steps, t).None? && AskedIn(s, steps, t).None?
    decreases |steps|
  {
    if steps != [] {
      StepFromEnding(s, steps[0], t);
      EndingOnlyEnds(Next(s, steps[0]), steps[1..], t);
    }
  }

  lemma StepFromEnding(s: Sys, step: Step, t: nat)
    requires IsEnding(PcOf(s, t)) && PcOf(s, t) != Outside
    ensures IsEnding(PcOf(Next(s, step), t))
  {}

  lemma StepFromWorking(s: Sys, step: Step, t: nat)
    requires PcOf(s, t) == Working || PcOf(s, t) == ClaimWorking
    ensures PcOf(Next(s, step), t) == PcOf(s, t) || IsEnding(PcOf(Next(s, step), t))
  {}

  lemma {:induction false} WorkingOnlyEnds(s: Sys, steps: seq<Step>, t: nat)
    requires StaysIn(s, steps, t) && (PcOf(s, t) == Working || PcOf(s, t) == ClaimWorking)
    ensures PortFound(s, steps, t).None?
    decreases |steps|
  {
    if steps != [] {
      var next := Next(s, steps[0]);
      StepFromWorking(s, steps[0], t);
      if IsEnding(PcOf(next, t)) {
        EndingOnlyEnds(next, steps[1..], t);
      } else {
        WorkingOnlyEnds(next, steps[1..], t);
      }
    }
  }

  // Where one step can take a thread that prepares: on to work exactly if it finds the
  // port free, else to its end.
  predicate Prepares(pc: Pc, next: Pc, step: Step, t: nat) {
    var wait := (free: bool) => if pc == Preparing then PortWait(t, free) else ClaimPortWait(t, free);
    && (step == wait(true) <==> next == (if pc == Preparing then Working else ClaimWorking))
    && (step == wait(false) ==> IsEnding(next))
    && (step != wait(true) ==> next == pc || IsEnding(next))
  }

  lemma SessionFromPreparing(s: Sys, step: Step, t: nat)
    requires (PcOf(s, t) == Preparing || PcOf(s, t) == ClaimPreparing) && InSession(step)
    ensures Prepares(PcOf(s, t), PcOf(SessionNext(s, step), t), step, t)
  {}

  lemma ClaimFromPreparing(s: Sys, step: Step, t: nat)
    requires (PcOf(s, t) == Preparing || PcOf(s, t) == ClaimPreparing) && !InSession(step)
    ensures Prepares(PcOf(s, t), PcOf(ClaimNext(s, step), t), step, t)
  {}

  lemma StepFromPreparing(s: Sys, step: Step, t: nat)
    requires PcOf(s, t) == Preparing || PcOf(s, t) == ClaimPreparing
    ensures Prepares(PcOf(s, t), PcOf(Next(s, step), t), step, t)
  {
    if InSession(step) { SessionFromPreparing(s, step, t); } else { ClaimFromPreparing(s, step, t); }
  }

  lemma {:induction false} PreparingWorksIff(s: Sys, steps: seq<Step>, t: nat)
    requires StaysIn(s, steps, t) && (PcOf(s, t) == Preparing || PcOf(s, t) == ClaimPreparing)
    ensures var work := if PcOf(s, t) == Preparing then Working else ClaimWorking;
            Reaches(s, steps, t, work) <==> PortFound(s, steps, t) == Some(true)
    decreases |steps|
  {
    if steps != [] {
      var next := Next(s, steps[0]);
      StepFromPreparing(s, steps[0], t);
      if PcOf(next, t) == PcOf(s, t) {
        PreparingWorksIff(next, steps[1..], t);
      } else if IsEnding(PcOf(next, t)) {
        EndingOnlyEnds(next, steps[1..], t);
      }
    }
  }

  lemma StepFromAdmitted(s: Sys, step: Step, t: nat)
    requires PcOf(s, t) == Admitted
    ensures PcOf(Next(s, step), t) == if step == SetPause(t) then Preparing else Admitted
    ensures PcOf(Next(s, step), t) == Preparing ==> Next(s, step).pause
  {}

  lemma {:induction false} AdmittedWorksIff(s: Sys, steps: seq<Step>, t: nat)
    requires StaysIn(s, steps, t) && PcOf(s, t) == Admitted
    ensures Reaches(s, steps, t, Working) <==> PortFound(s, steps, t) == Some(true)
    decreases |steps|
  {
    if steps != [] {
      StepFromAdmitted(s, steps[0], t);
      if steps[0] == SetPause(t) {
        PreparingWorksIff(Next(s, steps[0]), steps[1..], t);
      } else {
        AdmittedWorksIff(Next(s, steps[0]), steps[1..], t);
      }
    }
  }

  lemma StepFromLocked(s: Sys, step: Step, t: nat)
    requires PcOf(s, t) == Locked
    ensures PcOf(Next(s, step), t)
            == if step != AskPermission(t) then Locked else if CommandsAllowed(s.mode) then Admitted else Cooldown
  {}

  // A session, from taking the lock to its end, interleaved with anything: it is
  // admitted exactly if commands were allowed when it asked, and it works exactly if
  // it was admitted and then found the port free.  A refused one never even prepares.
  lemma {:induction false} SessionWorksIff(s: Sys, steps: seq<Step>, t: nat)
    requires StaysIn(s, steps, t) && PcOf(s, t) == Locked
    ensures var asked := AskedIn(s, steps, t);
            && (Reaches(s, steps, t, Admitted) <==> asked.Some? && CommandsAllowed(asked.value))
            && (!Reaches(s, steps, t, Admitted) ==>
                  PortFound(s, steps, t).None?
                  && !Reaches(s, steps, t, Preparing) && !Reaches(s, steps, t, Working))
    ensures Reaches(s, steps, t, Working) <==> PortFound(s, steps, t) == Some(true)
    decreases |steps|
  {
    if steps != [] {
      var next := Next(s, steps[0]);
      StepFromLocked(s, steps[0], t);
      if PcOf(next, t) == Locked {
        SessionWorksIff(next, steps[1..], t);
      } else if PcOf(next, t) == Admitted {
        AdmittedWorksIff(next, steps[1..], t);
      } else {
        EndingOnlyEnds(next, steps[1..], t);
      }
    }
  }

  // Left to itself, a session on an available radio gets to work on a free port, with
  // the listener paused; and a claim does so whether the radio is available or not.
  lemma SessionGetsToWork(s: Sys, t: nat, free: bool)
    requires At(s, t, Locked) && CommandsAllowed(s.mode)
    ensures var s' := Next(Next(Next(s, AskPermission(t)), SetPause(t)), PortWait(t, free));
            At(s', t, if free then Working else Cooldown) && s'.pause
  {}

  lemma ClaimGetsToWork(s: Sys, t: nat, free: bool)
    requires At(s, t, ClaimLocked)
    ensures var s' := Next(Next(s, ClaimPauses(t)), ClaimPortWait(t, free));
            At(s', t, if free then ClaimWorking else ClaimCooldown) && s'.pause
  {}

  // A call that asks first begins exactly when the radio is available.
  lemma GatedCallBeginsIff(s: Sys, t: nat)
    requires At(s, t, Outside)
    ensures At(Next(s, ClaimCalls(t, true)), t, ClaimWaiting) <==> s.identityOk && CommandsAllowed(s.mode)
    ensures At(Next(s, ClaimCalls(t, false)), t, ClaimWaiting)
  {}

  // From the moment a release begins, commands are refused until the release has
  // failed or a listener has started after a reconnect.
  lemma {:induction false} RefusedUntilBack(s: Sys, steps: seq<Step>)
    requires !CommandsAllowed(s.mode)
    requires forall i :: 0 <= i < |steps| ==> !steps[i].ReleaseFailed? && !steps[i].ListenerStarts?
    ensures !CommandsAllowed(Exec(s, steps).mode)
    decreases |steps|
  {
    if steps != [] {
      ModeSteps(s, steps[0]);
      RefusedUntilBack(Next(s, steps[0]), steps[1..]);
    }
  }

  lemma ModeSteps(s: Sys, step: Step)
    ensures CommandsAllowed(Next(s, step).mode) ==>
              CommandsAllowed(s.mode) || (step.ReleaseFailed? && s.mode == ReleaseFailing)
              || (step.ListenerStarts? && s.mode == Reconnecting)
    ensures CommandsAllowed(s.mode) && !CommandsAllowed(Next(s, step).mode) ==>
              step.ReleaseBegins? || step.ReconnectBegins?
  {}

  // ---------------------------------------------------------- paused while at work

  predicate AtWork(pc: Pc) {
    || pc == Preparing || pc == Working || pc == ClaimPreparing || pc == ClaimWorking || pc == ClaimCooldown
  }

  ghost predicate WorkPaused(s: Sys) {
    LockInv(s) && (s.owner.Some? && AtWork(s.pcs[s.owner.value]) ==> s.pause)
  }

  lemma SessionKeepsWorkPaused(s: Sys, step: Step)
    requires WorkPaused(s)
    ensures WorkPaused(SessionNext(s, step))
  {
    SessionKeepsLock(s, step);
  }

  lemma ClaimKeepsWorkPaused(s: Sys, step: Step)
    requires WorkPaused(s)
    ensures WorkPaused(ClaimNext(s, step))
  {
    ClaimKeepsLock(s, step);
  }

  // The listener is paused for as long as a session or a claim prepares or works,
  // unless a restart, a reconnect or a failing release lifts the pause.
  lemma {:induction false} WorkIsPaused(s: Sys, steps: seq<Step>)
    requires WorkPaused(s)
    requires forall i :: 0 <= i < |steps| ==> !steps[i].RestartClears? && !steps[i].ReleaseFails?
    ensures WorkPaused(Exec(s, steps))
    decreases |steps|
  {
    if steps != [] {
      SessionKeepsWorkPaused(s, steps[0]);
      ClaimKeepsWorkPaused(s, steps[0]);
      WorkIsPaused(Next(s, steps[0]), steps[1..]);
    }
  }

  // ------------------------------------------------------- release, reconnect, restart

  lemma ReleaseStopsListener(s: Sys)
    requires CommandsAllowed(s.mode)
    ensures Next(Next(Next(s, ReleaseBegins), ReleasePauses), ReleaseStops)
            == s.(mode := ReleaseStopping, pause := true)
  {}

  lemma ReleaseOutcomes(s: Sys)
    requires s.mode == ReleaseStopping && s.owner.None?
    ensures Next(Next(s, ReleasePasses), ReleaseSucceeds) == s.(mode := Released)
    ensures Next(Next(s, ReleaseFails), ReleaseFailed) == s.(mode := Errored, pause := false)
  {}

  // Undisturbed, a release with the lock free ends released and paused; failing after
  // the pause it ends in error, unpaused, with commands allowed again.
  lemma ReleaseAlone(s: Sys)
    requires CommandsAllowed(s.mode) && s.owner.None?
    ensures var stopped := Next(Next(Next(s, ReleaseBegins), ReleasePauses), ReleaseStops);
            && Next(Next(stopped, ReleasePasses), ReleaseSucceeds) == s.(mode := Released, pause := true)
            && Next(Next(stopped, ReleaseFails), ReleaseFailed) == s.(mode := Errored, pause := false)
  {
    ReleaseStopsListener(s);
    ReleaseOutcomes(s.(mode := ReleaseStopping, pause := true));
  }

  // A release cannot finish while somebody holds the lock.
  lemma ReleaseWaitsForLock(s: Sys, step: Step)
    requires s.mode == ReleaseStopping && s.owner.Some?
    ensures Next(s, step).mode == ReleaseStopping || step.ReleaseFails?
  {}

  // A reconnect lifts the pause, and a listener that then starts brings commands back.
  lemma ReconnectAlone(s: Sys)
    requires s.mode == Released || s.mode == Errored || s.mode == Reconnecting
    ensures var lifted := Next(Next(s, ReconnectBegins), RestartClears);
            lifted == s.(mode := Reconnecting, pause := false)
            && Next(lifted, ListenerStarts) == s.(mode := Connected, pause := false)
  {}

  // A listener restart is refused while the radio is released; else it pauses the
  // listener, waits for the lock and lifts the pause again.
  lemma RestartAlone(s: Sys)
    ensures IsReleased(s.mode) ==> Next(s, RestartAsks) == s
    ensures !IsReleased(s.mode) ==>
              var stopping := Next(Next(s, RestartAsks), RestartStops);
              && stopping == s.(pause := true, stopping := s.stopping + 1)
              && (s.owner.Some? ==> Next(stopping, RestartPasses) == stopping)
              && (s.owner.None? ==> Next(Next(stopping, RestartPasses), RestartClears) == s.(pause := false))
  {}

  // A session takes the lock if it is free and gives up otherwise; a claim waits.
  lemma AcquireDecides(s: Sys, t: nat)
    ensures At(s, t, Outside) && s.owner.None? ==>
              At(Next(s, Acquire(t)), t, Locked) && Next(s, Acquire(t)).owner == Some(t)
    ensures At(s, t, ClaimWaiting) && s.owner.None? ==>
              At(Next(s, ClaimAcquires(t)), t, ClaimLocked) && Next(s, ClaimAcquires(t)).owner == Some(t)
    ensures s.owner.Some? ==> Next(s, Acquire(t)) == s && Next(s, ClaimAcquires(t)) == s
    ensures Next(s, AcquireTimesOut(t)) == s
  {}
}
