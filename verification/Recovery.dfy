/** Automatic restarts of the radio listener (server.py).

  Every health tick first resolves a long PAUSED state into LISTENER_DOWN and then
  runs the recovery state machine: a confirmation timer, a pending-result window and
  a budget of 3 restarts in 30 minutes.  The class is the code's mutable record; the
  theorems are about whole traces of ticks. */
module Recovery {
  import opened Prelude

  const MAX_ATTEMPTS := 3
  const WINDOW := 1800.0
  const RESULT_TIMEOUT := 60.0
  const PAUSED_ESCALATE_THRESHOLD := 180.0

  datatype Health = LISTENER_DOWN | PAUSED | RELEASED | STARTING | OK | IDLE | NO_PACKETS

  // One health tick.  restartFails: stopping or restarting the listener raised.
  datatype Tick = Tick(status: Health, running: bool, now: real, enabled: bool, delay: int, restartFails: bool)

  datatype State = State(downSince: Option<real>, attempts: seq<real>, pending: bool,
                         requestedAt: Option<real>, pausedSince: Option<real>)

  const Init := State(None, [], false, None, None)

  function EffectiveDelay(delay: int): real {
    if delay in [30, 60, 90, 120, 180, 300] then delay as real else 60.0
  }

  // Restart times still inside the window; oldest first.
  function Recent(times: seq<real>, now: real): seq<real> {
    if times == [] then []
    else
      var last := times[|times| - 1];
      Recent(times[..|times| - 1], now) + if now - last < WINDOW then [last] else []
  }

  // The pause timer and the status recovery acts on.
  function PauseTimer(s: State, t: Tick): Option<real> {
    if t.status != PAUSED then None
    else if s.pausedSince.None? then Some(t.now)
    else s.pausedSince
  }

  function ActsOn(s: State, t: Tick): Health {
    var since := PauseTimer(s, t);
    if since.Some? && t.now - since.value >= PAUSED_ESCALATE_THRESHOLD then LISTENER_DOWN else t.status
  }

  // `restart_requested_at or now`: a stored time of 0 counts as missing.
  function RequestedAt(s: State, now: real): real {
    if s.requestedAt.Some? && s.requestedAt.value != 0.0 then s.requestedAt.value else now
  }

  predicate Restarts(s: State, t: Tick) {
    && t.enabled && !s.pending && ActsOn(s, t) == LISTENER_DOWN
    && s.downSince.Some? && t.now - s.downSince.value >= EffectiveDelay(t.delay)
    && |Recent(s.attempts, t.now)| < MAX_ATTEMPTS
  }

  function After(s: State, t: Tick): State {
    var p := PauseTimer(s, t);
    var status := ActsOn(s, t);
    var attempts := Recent(s.attempts, t.now);
    if !t.enabled then State(None, [], false, None, p)
    else if s.pending then
      if t.running && status != LISTENER_DOWN then State(None, attempts, false, None, p)
      else if t.now - RequestedAt(s, t.now) >= RESULT_TIMEOUT then State(Some(t.now), attempts, false, None, p)
      else State(s.downSince, attempts, true, s.requestedAt, p)
    else if status != LISTENER_DOWN then State(None, attempts, false, s.requestedAt, p)
    else if s.downSince.None? then State(Some(t.now), attempts, false, s.requestedAt, p)
    else if !Restarts(s, t) then State(s.downSince, attempts, false, s.requestedAt, p)
    else if t.restartFails then State(Some(t.now), attempts + [t.now], false, None, p)
    else State(None, attempts + [t.now], true, Some(t.now), p)
  }

  class ListenerRecovery {
    var downSince: Option<real>
    var attempts: seq<real>
    var restartPending: bool
    var restartRequestedAt: Option<real>
    var pausedSince: Option<real>

    constructor ()
      ensures View() == Init
    {
      downSince, attempts, restartPending, restartRequestedAt, pausedSince := None, [], false, None, None;
    }

    function View(): State
      reads this
    {
      State(downSince, attempts, restartPending, restartRequestedAt, pausedSince)
    }

    method ResolvePausedRecoveryStatus(t: Tick) returns (status: Health)
      modifies this`pausedSince
      ensures status == ActsOn(old(View()), t) && pausedSince == PauseTimer(old(View()), t)
    {
      if t.status != PAUSED {
        pausedSince := None;
        return t.status;
      }
      if pausedSince.None? {
        pausedSince := Some(t.now);
      }
      if t.now - pausedSince.value >= PAUSED_ESCALATE_THRESHOLD {
        return LISTENER_DOWN;
      }
      return t.status;
    }

    // Keeps only the attempts inside the window.
    method PruneAttempts(now: real)
      modifies this`attempts
      ensures attempts == Recent(old(attempts), now)
    {
      var kept := [];
      for i := 0 to |attempts|
        invariant kept == Recent(attempts[..i], now)
      {
        assert attempts[..i + 1][..i] == attempts[..i];
        if now - attempts[i] < WINDOW {
          kept := kept + [attempts[i]];
        }
      }
      assert attempts[..|attempts|] == attempts;
      attempts := kept;
    }

    // One round of the health worker: both functions on one reading of the clock.
    method HealthTick(t: Tick) returns (restarted: bool)
      modifies this
      ensures View() == After(old(View()), t) && restarted == Restarts(old(View()), t)
    {
      var status := ResolvePausedRecoveryStatus(t);
      restarted := false;
      if !t.enabled {
        downSince, restartPending, restartRequestedAt, attempts := None, false, None, [];
        return;
      }
      PruneAttempts(t.now);
      if restartPending {
        var requestedAt := t.now;
        if restartRequestedAt.Some? && restartRequestedAt.value != 0.0 {
          requestedAt := restartRequestedAt.value;
        }
        if t.running && status != LISTENER_DOWN {
          restartPending, restartRequestedAt, downSince := false, None, None;
          return;
        }
        if t.now - requestedAt >= RESULT_TIMEOUT {
          restartPending, restartRequestedAt, downSince := false, None, Some(t.now);
        }
        return;
      }
      if status != LISTENER_DOWN {
        downSince := None;
        return;
      }
      if downSince.None? {
        downSince := Some(t.now);
        return;
      }
      if t.now - downSince.value < EffectiveDelay(t.delay) {
        return;
      }
      if |attempts| >= MAX_ATTEMPTS {
        return;
      }
      attempts := attempts + [t.now];
      restartPending, restartRequestedAt, downSince := true, Some(t.now), None;
      restarted := true;
      if t.restartFails {
        restartPending, restartRequestedAt, downSince := false, None, Some(t.now);
      }
    }
  }

  // --------------------------------------------------------------------- traces

  function Run(ticks: seq<Tick>): State {
    if ticks == [] then Init else After(Run(ticks[..|ticks| - 1]), ticks[|ticks| - 1])
  }

  // State just before tick i.
  function Before(ticks: seq<Tick>, i: nat): State
    requires i <= |ticks|
  {
    Run(ticks[..i])
  }

  predicate RestartAt(ticks: seq<Tick>, i: nat)
    requires i < |ticks|
  {
    Restarts(Before(ticks, i), ticks[i])
  }

  predicate Timed(ticks: seq<Tick>) {
    forall i, j :: 0 <= i <= j < |ticks| ==> ticks[i].now <= ticks[j].now
  }

  // Times of all automatic restarts since recovery was last switched off.
  function History(ticks: seq<Tick>): seq<real> {
    if ticks == [] then []
    else
      var t := ticks[|ticks| - 1];
      if !t.enabled then []
      else History(ticks[..|ticks| - 1]) + if RestartAt(ticks, |ticks| - 1) then [t.now] else []
  }

  // --------------------------------------------------------------------- budget

  lemma {:induction false} RecentAgain(times: seq<real>, now: real, later: real)
    requires now <= later
    ensures Recent(Recent(times, now), later) == Recent(times, later)
  {
    if times != [] {
      var last := times[|times| - 1];
      RecentAgain(times[..|times| - 1], now, later);
      var front := Recent(times[..|times| - 1], now);
      if now - last < WINDOW {
        assert (front + [last])[..|front|] == front;
      } else {
        assert Recent(times, now) == front;
      }
    }
  }

  lemma {:induction false} BudgetTracksHistory(ticks: seq<Tick>)
    requires Timed(ticks) && ticks != []
    ensures Run(ticks).attempts == Recent(History(ticks), ticks[|ticks| - 1].now)
  {
    var n := |ticks| - 1;
    var front := ticks[..n];
    var t := ticks[n];
    if t.enabled {
      if front != [] {
        BudgetTracksHistory(front);
        assert front[|front| - 1] == ticks[n - 1];
        RecentAgain(History(front), ticks[n - 1].now, t.now);
      }
      assert Recent(Run(front).attempts, t.now) == Recent(History(front), t.now);
      if Restarts(Run(front), t) {
        assert (History(front) + [t.now])[..|History(front)|] == History(front);
      } else {
        assert History(ticks) == History(front);
      }
    }
  }

  predicate Ordered(times: seq<real>, bound: real) {
    && (forall i, j :: 0 <= i <= j < |times| ==> times[i] <= times[j])
    && forall i :: 0 <= i < |times| ==> times[i] <= bound
  }

  lemma {:induction false} HistoryOrdered(ticks: seq<Tick>)
    requires Timed(ticks) && ticks != []
    ensures Ordered(History(ticks), ticks[|ticks| - 1].now)
  {
    var n := |ticks| - 1;
    if n > 0 {
      HistoryOrdered(ticks[..n]);
      assert ticks[..n][n - 1].now <= ticks[n].now;
    }
  }

  // Three recent restarts fill the window.
  lemma RecentCounts(times: seq<real>, now: real)
    requires |times| >= 3 && Ordered(times, now) && now - times[|times| - 3] < WINDOW
    ensures |Recent(times, now)| >= 3
  {
    var n := |times|;
    assert times[..n - 1][n - 2] == times[n - 2] && times[..n - 1][..n - 2] == times[..n - 2];
    assert times[..n - 2][n - 3] == times[n - 3];
    assert |Recent(times[..n - 2], now)| >= 1;
    assert |Recent(times[..n - 1], now)| >= 2;
  }

  // At most three automatic restarts in any half hour: while recovery stays
  // enabled, restart i + 3 comes at least 1800 s after restart i.
  lemma {:induction false} AtMostThreePerWindow(ticks: seq<Tick>, i: nat)
    requires Timed(ticks) && i + 3 < |History(ticks)|
    ensures History(ticks)[i + 3] - History(ticks)[i] >= WINDOW
  {
    var n := |ticks| - 1;
    var front := ticks[..n];
    var h := History(front);
    if i + 3 < |h| {
      AtMostThreePerWindow(front, i);
    } else {
      var t := ticks[n];
      assert RestartAt(ticks, n) && i + 3 == |h| && front != [];
      BudgetTracksHistory(front);
      HistoryOrdered(front);
      assert front[n - 1].now <= t.now;
      RecentAgain(h, front[n - 1].now, t.now);
      if t.now - h[i] < WINDOW {
        RecentCounts(h, t.now);
      }
    }
  }

  lemma RunSnoc(ticks: seq<Tick>, t: Tick)
    ensures Run(ticks + [t]) == After(Run(ticks), t)
    ensures RestartAt(ticks + [t], |ticks|) == Restarts(Run(ticks), t)
  {
    assert (ticks + [t])[..|ticks|] == ticks;
  }

  // "While recovery stays enabled" is needed: after any trace, however recent its
  // restarts, one tick with recovery off lets the next restart come as soon as a
  // fresh confirmation timer runs out.
  lemma DisablingClearsBudget(ticks: seq<Tick>, off: Tick, down: Tick, again: Tick)
    requires !off.enabled && down.enabled && again.enabled
    requires down.status == LISTENER_DOWN && again.status == LISTENER_DOWN
    requires again.now - down.now >= EffectiveDelay(again.delay)
    ensures RestartAt(ticks + [off] + [down] + [again], |ticks| + 2)
    ensures Run(ticks + [off] + [down] + [again]).attempts == [again.now]
  {
    RunSnoc(ticks, off);
    RunSnoc(ticks + [off], down);
    RunSnoc(ticks + [off] + [down], again);
    assert After(Run(ticks), off).attempts == [];
    assert Run(ticks + [off] + [down]).downSince == Some(down.now);
  }

  // --------------------------------------------------------------- confirmation

  // Tick j reports the listener down, with recovery on and no restart pending.
  predicate ReportsDown(ticks: seq<Tick>, j: nat)
    requires j < |ticks|
  {
    ActsOn(Before(ticks, j), ticks[j]) == LISTENER_DOWN && ticks[j].enabled && !Before(ticks, j).pending
  }

  // The timer was set at tick k and every later tick, up to the end, reports down
  // and requests no restart that went through.
  ghost predicate TimerSet(ticks: seq<Tick>, k: nat, since: real) {
    && k < |ticks| && ticks[k].now == since
    && forall j :: k < j < |ticks| ==> ReportsDown(ticks, j) && !RestartAt(ticks, j)
  }

  lemma {:induction false} DownSinceIsATick(ticks: seq<Tick>)
    requires Run(ticks).downSince.Some?
    ensures exists k: nat :: TimerSet(ticks, k, Run(ticks).downSince.value)
  {
    var n := |ticks| - 1;
    var front := ticks[..n];
    var s, t := Run(front), ticks[n];
    assert Before(ticks, n) == s;
    if Run(ticks).downSince == Some(t.now) {
      assert TimerSet(ticks, n, t.now);
    } else {
      assert !s.pending || s.downSince == Run(ticks).downSince;
      PendingHasNoTimer(front);
      DownSinceIsATick(front);
      var k: nat :| TimerSet(front, k, s.downSince.value);
      forall j | k < j < |ticks| ensures ReportsDown(ticks, j) && !RestartAt(ticks, j) {
        if j < n {
          assert front[..j] == ticks[..j];
          assert ReportsDown(front, j) && !RestartAt(front, j);
        }
      }
      assert TimerSet(ticks, k, s.downSince.value);
    }
  }

  lemma {:induction false} PendingHasNoTimer(ticks: seq<Tick>)
    ensures Run(ticks).pending ==> Run(ticks).downSince.None?
  {
    if ticks != [] {
      PendingHasNoTimer(ticks[..|ticks| - 1]);
    }
  }

  // Every automatic restart follows a confirmation timer at least `delay` seconds
  // old, with every tick since, this one included, reporting down, recovery on,
  // no restart pending, and none made in between.
  lemma RestartIsConfirmed(ticks: seq<Tick>, n: nat) returns (k: nat)
    requires n < |ticks| && RestartAt(ticks, n)
    ensures k < n && ticks[n].now - ticks[k].now >= EffectiveDelay(ticks[n].delay)
    ensures forall j :: k < j <= n ==> ReportsDown(ticks, j)
    ensures forall j :: k < j < n ==> !RestartAt(ticks, j)
  {
    var front := ticks[..n];
    DownSinceIsATick(front);
    k :| TimerSet(front, k, Run(front).downSince.value);
    forall j | k < j < n ensures ReportsDown(ticks, j) && !RestartAt(ticks, j) {
      assert front[..j] == ticks[..j];
      assert ReportsDown(front, j) && !RestartAt(front, j);
    }
  }

  // ----------------------------------------------------------------- escalation

  ghost predicate PausedThroughout(ticks: seq<Tick>, k: nat, since: real) {
    && k < |ticks| && ticks[k].now == since
    && forall j :: k <= j < |ticks| ==> ticks[j].status == PAUSED
  }

  lemma {:induction false} PausedSinceIsATick(ticks: seq<Tick>)
    requires Run(ticks).pausedSince.Some?
    ensures exists k: nat :: PausedThroughout(ticks, k, Run(ticks).pausedSince.value)
  {
    var n := |ticks| - 1;
    var front := ticks[..n];
    if Run(front).pausedSince.None? {
      assert PausedThroughout(ticks, n, ticks[n].now);
    } else {
      PausedSinceIsATick(front);
      var k: nat :| PausedThroughout(front, k, Run(front).pausedSince.value);
      forall j | k <= j < |ticks| ensures ticks[j].status == PAUSED {
        if j < n { assert front[j].status == PAUSED; }
      }
      assert PausedThroughout(ticks, k, Run(ticks).pausedSince.value);
    }
  }

  // A restart made while the worker reads PAUSED ends an unbroken series of PAUSED
  // ticks that began at least 180 s earlier.
  lemma EscalationNeedsLongPause(ticks: seq<Tick>, n: nat) returns (k: nat)
    requires n < |ticks| && RestartAt(ticks, n) && ticks[n].status == PAUSED
    ensures k < n && ticks[n].now - ticks[k].now >= PAUSED_ESCALATE_THRESHOLD
    ensures forall j :: k <= j <= n ==> ticks[j].status == PAUSED
  {
    var upTo := ticks[..n + 1];
    assert upTo[..n] == ticks[..n];
    PausedSinceIsATick(upTo);
    k :| PausedThroughout(upTo, k, Run(upTo).pausedSince.value);
    assert forall j :: k <= j <= n ==> upTo[j] == ticks[j];
  }

  // Recovery acts on a tick as on a listener that is down exactly if it is, or if the
  // worker has read PAUSED without a break for at least 180 s.
  lemma EscalatesIff(ticks: seq<Tick>, n: nat)
    requires Timed(ticks) && n < |ticks|
    ensures Down(ticks, n) <==>
              ticks[n].status == LISTENER_DOWN
              || exists k: nat :: k <= n && ticks[n].now - ticks[k].now >= PAUSED_ESCALATE_THRESHOLD
                                  && forall j :: k <= j <= n ==> ticks[j].status == PAUSED
  {
    var upTo := ticks[..n + 1];
    assert upTo[..n] == ticks[..n];
    if Down(ticks, n) && ticks[n].status != LISTENER_DOWN {
      PausedSinceIsATick(upTo);
      var k: nat :| PausedThroughout(upTo, k, Run(upTo).pausedSince.value);
      assert forall j :: k <= j <= n ==> upTo[j] == ticks[j];
    }
    if k: nat :| k <= n && ticks[n].now - ticks[k].now >= PAUSED_ESCALATE_THRESHOLD
                 && forall j :: k <= j <= n ==> ticks[j].status == PAUSED {
      PauseIsRemembered(ticks, k, n);
    }
  }

  lemma {:induction false} PauseIsRemembered(ticks: seq<Tick>, k: nat, n: nat)
    requires Timed(ticks) && k <= n < |ticks| && forall j :: k <= j <= n ==> ticks[j].status == PAUSED
    ensures PauseTimer(Before(ticks, n), ticks[n]).Some?
    ensures PauseTimer(Before(ticks, n), ticks[n]).value <= ticks[k].now
    ensures Run(ticks[..n + 1]).pausedSince == PauseTimer(Before(ticks, n), ticks[n])
  {
    assert ticks[..n + 1][..n] == ticks[..n];
    if k < n {
      PauseIsRemembered(ticks, k, n - 1);
    } else {
      PausedSinceIsPast(ticks, n);
    }
  }

  lemma {:induction false} PausedSinceIsPast(ticks: seq<Tick>, n: nat)
    requires Timed(ticks) && n < |ticks|
    ensures Before(ticks, n).pausedSince.Some? ==> Before(ticks, n).pausedSince.value <= ticks[n].now
  {
    if n > 0 {
      PausedSinceIsPast(ticks, n - 1);
      assert ticks[..n][..n - 1] == ticks[..n - 1];
    }
  }

  // ------------------------------------------------------------------- progress

  // Recovery takes tick n for a listener that is down.
  predicate Down(ticks: seq<Tick>, n: nat)
    requires n < |ticks|
  {
    ActsOn(Before(ticks, n), ticks[n]) == LISTENER_DOWN
  }

  // Every tick after j up to and including n finds recovery on and the listener down.
  ghost predicate StaysDown(ticks: seq<Tick>, j: nat, n: nat)
    requires n < |ticks|
  {
    forall m :: j < m <= n ==> ticks[m].enabled && Down(ticks, m)
  }

  // Three restarts lie less than 1800 s before tick n.
  predicate Exhausted(ticks: seq<Tick>, n: nat)
    requires n < |ticks|
  {
    |Recent(History(ticks[..n]), ticks[n].now)| >= MAX_ATTEMPTS
  }

  // Recovery waits, its confirmation timer running since tick j.
  predicate WaitsSince(ticks: seq<Tick>, j: nat, n: nat)
    requires j < |ticks| && n <= |ticks|
  {
    !Before(ticks, n).pending && Before(ticks, n).downSince == Some(ticks[j].now)
  }

  lemma OneTick(ticks: seq<Tick>, n: nat)
    requires n < |ticks|
    ensures Before(ticks, n + 1) == After(Before(ticks, n), ticks[n])
  {
    assert ticks[..n + 1][..n] == ticks[..n];
  }

  lemma {:induction false} KeepsWaiting(ticks: seq<Tick>, j: nat, n: nat)
    requires j < n < |ticks| && WaitsSince(ticks, j, j + 1) && StaysDown(ticks, j, n)
    requires forall m :: j < m < n ==> !RestartAt(ticks, m)
    ensures WaitsSince(ticks, j, n)
  {
    if j + 1 < n {
      KeepsWaiting(ticks, j, n - 1);
      assert ticks[n - 1].enabled && Down(ticks, n - 1) && !RestartAt(ticks, n - 1);
      OneTick(ticks, n - 1);
      StillWaits(Before(ticks, n - 1), ticks[n - 1]);
    }
  }

  lemma StillWaits(s: State, t: Tick)
    requires !s.pending && s.downSince.Some? && t.enabled && ActsOn(s, t) == LISTENER_DOWN && !Restarts(s, t)
    ensures !After(s, t).pending && After(s, t).downSince == s.downSince
  {}

  lemma BudgetIsHistory(ticks: seq<Tick>, n: nat)
    requires Timed(ticks) && n < |ticks|
    ensures |Recent(Before(ticks, n).attempts, ticks[n].now)| >= MAX_ATTEMPTS <==> Exhausted(ticks, n)
  {
    var front := ticks[..n];
    if n > 0 {
      assert front[n - 1] == ticks[n - 1] && Timed(front);
      BudgetTracksHistory(front);
      RecentAgain(History(front), ticks[n - 1].now, ticks[n].now);
    }
  }

  // Once the timer runs, with the listener down ever since and no restart yet, a tick
  // restarts exactly when the timer is `delay` old and the budget is not exhausted.
  lemma WaitingRestartsIff(ticks: seq<Tick>, j: nat, n: nat)
    requires Timed(ticks) && j < n < |ticks| && WaitsSince(ticks, j, j + 1) && StaysDown(ticks, j, n)
    requires forall m :: j < m < n ==> !RestartAt(ticks, m)
    ensures RestartAt(ticks, n) <==>
              ticks[n].now - ticks[j].now >= EffectiveDelay(ticks[n].delay) && !Exhausted(ticks, n)
  {
    KeepsWaiting(ticks, j, n);
    BudgetIsHistory(ticks, n);
    assert Down(ticks, n);
  }

  // The first tick that finds the listener down: nothing before it, or a tick with
  // recovery off or the listener up and running.
  predicate OutageBegins(ticks: seq<Tick>, j: nat)
    requires j < |ticks|
  {
    && ticks[j].enabled && Down(ticks, j)
    && (j == 0 || !ticks[j - 1].enabled || (ticks[j - 1].running && !Down(ticks, j - 1)))
  }

  // Recovery does come: from the beginning of an outage, while it lasts, the first
  // restart is made by the first tick at least `delay` after it, unless three restarts
  // already lie within 1800 s; then by the first tick at which that is over.
  lemma OutageRestartsIff(ticks: seq<Tick>, j: nat, n: nat)
    requires Timed(ticks) && j < n < |ticks| && OutageBegins(ticks, j) && StaysDown(ticks, j, n)
    requires forall m :: j < m < n ==> !RestartAt(ticks, m)
    ensures !RestartAt(ticks, j)
    ensures RestartAt(ticks, n) <==>
              ticks[n].now - ticks[j].now >= EffectiveDelay(ticks[n].delay) && !Exhausted(ticks, n)
  {
    if j > 0 { OneTick(ticks, j - 1); }
    OneTick(ticks, j);
    WaitingRestartsIff(ticks, j, n);
  }

  lemma StillAwaits(s: State, t: Tick)
    requires s.pending && s.requestedAt.Some? && s.requestedAt.value != 0.0 && t.enabled
    requires ActsOn(s, t) == LISTENER_DOWN && t.now - s.requestedAt.value < RESULT_TIMEOUT
    ensures After(s, t).pending && After(s, t).requestedAt == s.requestedAt && !Restarts(s, t)
  {}

  lemma RestartAwaits(s: State, t: Tick)
    requires Restarts(s, t) && !t.restartFails
    ensures After(s, t).pending && After(s, t).requestedAt == Some(t.now)
  {}

  // Just before tick n the result of restart i is awaited.
  predicate Awaits(ticks: seq<Tick>, i: nat, n: nat)
    requires i < |ticks| && n <= |ticks|
  {
    Before(ticks, n).pending && Before(ticks, n).requestedAt == Some(ticks[i].now)
  }

  lemma AwaitsOnce(ticks: seq<Tick>, i: nat, n: nat)
    requires i < n < |ticks| && Awaits(ticks, i, n) && ticks[i].now != 0.0 && ticks[n].enabled && Down(ticks, n)
    requires ticks[n].now - ticks[i].now < RESULT_TIMEOUT
    ensures Awaits(ticks, i, n + 1)
  {
    OneTick(ticks, n);
    StillAwaits(Before(ticks, n), ticks[n]);
  }

  lemma AwaitsAtFirst(ticks: seq<Tick>, i: nat)
    requires i < |ticks| && RestartAt(ticks, i) && !ticks[i].restartFails
    ensures Awaits(ticks, i, i + 1)
  {
    OneTick(ticks, i);
    RestartAwaits(Before(ticks, i), ticks[i]);
  }

  // Restart i went through at time r; until tick n, less than 60 s later, the listener
  // has stayed down: the restart is pending all that time.
  lemma {:induction false} ResultIsAwaited(ticks: seq<Tick>, i: nat, n: nat)
    requires i < n < |ticks| && RestartAt(ticks, i) && !ticks[i].restartFails && ticks[i].now != 0.0
    requires StaysDown(ticks, i, n) && forall m :: i < m < n ==> ticks[m].now - ticks[i].now < RESULT_TIMEOUT
    ensures Awaits(ticks, i, n) && !RestartAt(ticks, n)
  {
    if i + 1 < n {
      ResultIsAwaited(ticks, i, n - 1);
      AwaitsOnce(ticks, i, n - 1);
    } else {
      AwaitsAtFirst(ticks, i);
    }
    PendingHoldsBack(Before(ticks, n), ticks[n]);
  }

  lemma PendingHoldsBack(s: State, t: Tick)
    ensures s.pending ==> !Restarts(s, t)
  {}

  // A restart that did not help is followed by another.  The first tick at least 60 s
  // after it, j, ends the wait and starts a new timer; from there, as from the
  // beginning of an outage, the first tick at least `delay` after j that the budget
  // allows restarts again.
  lemma FailedRestartRestartsIff(ticks: seq<Tick>, i: nat, j: nat, n: nat)
    requires Timed(ticks) && i < j < n < |ticks|
    requires RestartAt(ticks, i) && !ticks[i].restartFails && ticks[i].now != 0.0 && StaysDown(ticks, i, n)
    requires ticks[j].now - ticks[i].now >= RESULT_TIMEOUT
    requires forall m :: i < m < j ==> ticks[m].now - ticks[i].now < RESULT_TIMEOUT
    requires forall m :: j < m < n ==> !RestartAt(ticks, m)
    ensures forall m :: i < m <= j ==> !RestartAt(ticks, m)
    ensures WaitsSince(ticks, j, j + 1)
    ensures RestartAt(ticks, n) <==>
              ticks[n].now - ticks[j].now >= EffectiveDelay(ticks[n].delay) && !Exhausted(ticks, n)
  {
    forall m | i < m <= j ensures !RestartAt(ticks, m) { ResultIsAwaited(ticks, i, m); }
    ResultIsAwaited(ticks, i, j);
    assert ticks[j].enabled && Down(ticks, j);
    OneTick(ticks, j);
    WaitingRestartsIff(ticks, j, n);
  }

  // A restart that raised starts its new timer at once.
  lemma RaisedRestartRestartsIff(ticks: seq<Tick>, i: nat, n: nat)
    requires Timed(ticks) && i < n < |ticks| && RestartAt(ticks, i) && ticks[i].restartFails
    requires StaysDown(ticks, i, n) && forall m :: i < m < n ==> !RestartAt(ticks, m)
    ensures RestartAt(ticks, n) <==>
              ticks[n].now - ticks[i].now >= EffectiveDelay(ticks[n].delay) && !Exhausted(ticks, n)
  {
    OneTick(ticks, i);
    WaitingRestartsIff(ticks, i, n);
  }

  // A listener seen up and running within the 60 s ends the wait, and so does recovery
  // switched off: the next outage is timed from its own first tick.
  lemma RecoveredRestartEnds(ticks: seq<Tick>, j: nat)
    requires j < |ticks| && (!ticks[j].enabled || (ticks[j].running && !Down(ticks, j)))
    ensures !Before(ticks, j + 1).pending && Before(ticks, j + 1).downSince.None? && !RestartAt(ticks, j)
  {
    OneTick(ticks, j);
  }

  // The delays a user can choose; any other setting counts as a minute.
  lemma DelayDecides(delay: int)
    ensures delay == 30 || delay == 60 || delay == 90 || delay == 120 || delay == 180 || delay == 300 ==>
              EffectiveDelay(delay) == delay as real
    ensures delay != 30 && delay != 60 && delay != 90 && delay != 120 && delay != 180 && delay != 300 ==>
              EffectiveDelay(delay) == 60.0
  {}
}
