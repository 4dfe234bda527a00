/** Login throttling (api/api_auth.py).

  The first wrong passwords of a client are free; then each one sets a lock-out that
  doubles up to a cap.  Entries nobody used for a day are swept.  The theorems are
  about one client's streak of wrong passwords inside any traffic. */
module LoginThrottle {

  const FREE_ATTEMPTS := 5
  const BASE_SECONDS := 2
  const MAX_SECONDS := 300
  const ENTRY_TTL_SECONDS := 86400.0
  const MAX_EXPONENT := 9

  function Pow2(n: nat): nat {
    if n == 0 then 1 else 2 * Pow2(n - 1)
  }

  function Min(a: int, b: int): int {
    if a < b then a else b
  }

  function Delay(failCount: nat): nat {
    var over := failCount - FREE_ATTEMPTS + 1;
    if over <= 0 then 0
    else Min(BASE_SECONDS * Pow2(Min(over - 1, MAX_EXPONENT)), MAX_SECONDS)
  }

  lemma {:induction false} Pow2Grows(n: nat)
    ensures n >= 9 ==> Pow2(n) >= 512
  {
    if n > 9 {
      Pow2Grows(n - 1);
    } else if n == 9 {
      assert Pow2(3) == 8 && Pow2(6) == 64 && Pow2(9) == 512;
    }
  }

  // Capping the exponent never shows: the delay is the plain doubling, capped.
  lemma DelayIsCappedDoubling(failCount: nat)
    ensures Delay(failCount) == if failCount < 5 then 0 else Min(2 * Pow2(failCount - 5), 300)
  {
    if failCount >= 14 {
      Pow2Grows(failCount - 5);
      Pow2Grows(9);
    }
  }

  datatype Entry = Entry(failCount: nat, lastSeen: real, lockedUntil: real)

  type Table = map<string, Entry>

  // A POST to /login by `client`; `matches`: the password is the right one.
  datatype Attempt = Attempt(client: string, now: real, matches: bool)

  datatype Response = Throttled | LoggedIn | Wrong

  function Swept(table: Table, now: real): Table {
    map key | key in table && now - table[key].lastSeen <= ENTRY_TTL_SECONDS :: table[key]
  }

  predicate Locked(table: Table, client: string, now: real) {
    client in table && now < table[client].lockedUntil
  }

  function Answer(table: Table, a: Attempt): Response {
    if Locked(Swept(table, a.now), a.client, a.now) then Throttled
    else if a.matches then LoggedIn
    else Wrong
  }

  function Failures(table: Table, client: string): nat {
    if client in table then table[client].failCount else 0
  }

  function After(table: Table, a: Attempt): Table {
    var swept := Swept(table, a.now);
    match Answer(table, a)
    case Throttled => swept
    case LoggedIn => swept - {a.client}
    case Wrong =>
      var n := Failures(swept, a.client) + 1;
      swept[a.client := Entry(n, a.now, a.now + Delay(n) as real)]
  }

  class LoginGate {
    var table: Table

    constructor ()
      ensures table == map[]
    {
      table := map[];
    }

    method Prune(now: real)
      modifies this
      ensures table == Swept(old(table), now)
    {
      var stale := set key | key in table && now - table[key].lastSeen > ENTRY_TTL_SECONDS;
      table := table - stale;
    }

    method Login(a: Attempt) returns (response: Response)
      modifies this
      ensures response == Answer(old(table), a) && table == After(old(table), a)
    {
      Prune(a.now);
      var lockedUntil := if a.client in table then table[a.client].lockedUntil else 0.0;
      if a.client in table && a.now < lockedUntil {
        return Throttled;
      }
      if a.matches {
        table := table - {a.client};
        return LoggedIn;
      }
      if a.client !in table {
        table := table[a.client := Entry(0, a.now, 0.0)];
      }
      var n := table[a.client].failCount + 1;
      table := table[a.client := Entry(n, a.now, a.now + Delay(n) as real)];
      return Wrong;
    }
  }

  // --------------------------------------------------------------------- traces

  function TableAfter(attempts: seq<Attempt>): Table {
    if attempts == [] then map[] else After(TableAfter(attempts[..|attempts| - 1]), attempts[|attempts| - 1])
  }

  predicate Timed(attempts: seq<Attempt>) {
    forall i, j :: 0 <= i <= j < |attempts| ==> attempts[i].now <= attempts[j].now
  }

  // How many of these failures are in a row without a day between two of them.
  function RunLength(times: seq<real>): nat {
    var n := |times|;
    if n <= 1 then n
    else if times[n - 1] - times[n - 2] <= ENTRY_TTL_SECONDS then RunLength(times[..n - 1]) + 1
    else 1
  }

  // The lock-out those failures call for still runs.
  predicate LockedOut(times: seq<real>, now: real) {
    times != [] && now < times[|times| - 1] + Delay(RunLength(times)) as real
  }

  // Times of the wrong passwords of `client` that were checked since its last success:
  // a plain account of the traffic, without any table.
  function Streak(attempts: seq<Attempt>, client: string): seq<real> {
    if attempts == [] then []
    else
      var times, a := Streak(attempts[..|attempts| - 1], client), attempts[|attempts| - 1];
      if a.client != client || LockedOut(times, a.now) then times
      else if a.matches then []
      else times + [a.now]
  }

  // Seconds n wrong passwords in a row take at least, when no entry is swept.
  function Cost(n: nat): nat {
    if n <= 1 then 0 else Cost(n - 1) + Delay(n - 1)
  }

  lemma {:induction false} CostIsLinear(n: nat)
    ensures Cost(n) >= 300 * n - 3390
    ensures n >= 13 ==> Cost(n) == 300 * n - 3390
  {
    if n > 13 {
      CostIsLinear(n - 1);
      DelayIsCappedDoubling(n - 1);
      Pow2Grows(n - 6 + 1);
      Pow2AtLeast(n - 6);
    } else {
      CostTable();
    }
  }

  lemma Pow2AtLeast(n: nat)
    requires n >= 8
    ensures Pow2(n) >= 256
  {
    if n > 8 { Pow2Grows(n); } else { assert Pow2(4) == 16 && Pow2(8) == 256; }
  }

  lemma CostTable()
    ensures Delay(12) == 256 && Cost(13) == 510 && Cost(12) == 254
    ensures Cost(5) == 0 && Cost(6) == 2
  {
    assert Pow2(0) == 1 && Pow2(1) == 2 && Pow2(2) == 4 && Pow2(3) == 8;
    assert Pow2(4) == 16 && Pow2(5) == 32 && Pow2(6) == 64 && Pow2(7) == 128;
    assert Cost(2) == 0 && Cost(3) == 0 && Cost(4) == 0 && Cost(5) == 0;
    assert Cost(6) == 2 && Cost(7) == 6 && Cost(8) == 14 && Cost(9) == 30;
    assert Cost(10) == 62 && Cost(11) == 126 && Cost(12) == 254;
  }

  // A stored entry was written when it was last seen, with the lock-out its failure
  // count stands for.
  ghost predicate EntryExact(e: Entry) {
    e.failCount > 0 && e.lockedUntil == e.lastSeen + Delay(e.failCount) as real
  }

  lemma {:induction false} EntriesExact(attempts: seq<Attempt>)
    ensures forall key :: key in TableAfter(attempts) ==> EntryExact(TableAfter(attempts)[key])
  {
    if attempts != [] {
      EntriesExact(attempts[..|attempts| - 1]);
    }
  }

  // Sweeping never frees a client that is still locked out.
  lemma {:induction false} SweepKeepsLocks(attempts: seq<Attempt>, client: string, now: real)
    ensures Locked(Swept(TableAfter(attempts), now), client, now) == Locked(TableAfter(attempts), client, now)
  {
    EntriesExact(attempts);
    if client in TableAfter(attempts) {
      assert Delay(TableAfter(attempts)[client].failCount) <= 300;
    }
  }

  // The entry of a client is its streak: it is there until a day after the last
  // failure and holds how many were in a row and the lock-out that stands for.
  ghost predicate Mirrors(table: Table, client: string, times: seq<real>, now: real) {
    if client in table then
      && times != []
      && table[client] == Entry(RunLength(times), times[|times| - 1],
                                times[|times| - 1] + Delay(RunLength(times)) as real)
    else times == [] || now - times[|times| - 1] > ENTRY_TTL_SECONDS
  }

  lemma DelayIsShort(n: nat)
    ensures 0 <= Delay(n) <= MAX_SECONDS
  {
    DelayIsCappedDoubling(n);
  }

  // What is answered, told from the account of the traffic alone.
  function Told(times: seq<real>, a: Attempt): Response {
    if LockedOut(times, a.now) then Throttled else if a.matches then LoggedIn else Wrong
  }

  lemma MirrorAnswers(table: Table, times: seq<real>, before: real, a: Attempt)
    requires Mirrors(table, a.client, times, before) && before <= a.now
    ensures Answer(table, a) == Told(times, a)
  {
    DelayIsShort(RunLength(times));
  }

  lemma MirrorKept(table: Table, client: string, times: seq<real>, before: real, a: Attempt)
    requires Mirrors(table, client, times, before) && before <= a.now
    ensures Mirrors(After(table, a), client,
                    StreakAfter(times, client, a), a.now)
  {
    if a.client == client {
      MirrorAnswers(table, times, before, a);
      assert (times + [a.now])[..|times|] == times;
    }
  }

  lemma {:induction false} TableMirrorsStreak(attempts: seq<Attempt>, client: string, now: real)
    requires Timed(attempts) && (attempts != [] ==> attempts[|attempts| - 1].now <= now)
    ensures Mirrors(TableAfter(attempts), client, Streak(attempts, client), now)
  {
    if attempts != [] {
      var n := |attempts| - 1;
      TableMirrorsStreak(attempts[..n], client, attempts[n].now);
      MirrorKept(TableAfter(attempts[..n]), client, Streak(attempts[..n], client), attempts[n].now, attempts[n]);
    }
  }

  // Over all traffic: an attempt is throttled exactly while the lock-out of its
  // client's streak runs; otherwise it logs in exactly when the password is right.
  lemma AnswerIff(attempts: seq<Attempt>, a: Attempt)
    requires Timed(attempts + [a])
    ensures var answer, locked := Answer(TableAfter(attempts), a), LockedOut(Streak(attempts, a.client), a.now);
            && (answer.Throttled? <==> locked)
            && (answer.LoggedIn? <==> !locked && a.matches)
            && (answer.Wrong? <==> !locked && !a.matches)
    ensures LockedOut(Streak(attempts, a.client), a.now) == Locked(TableAfter(attempts), a.client, a.now)
  {
    TimedFront(attempts, a);
    TableMirrorsStreak(attempts, a.client, a.now);
    MirrorAnswers(TableAfter(attempts), Streak(attempts, a.client), a.now, a);
    DelayIsShort(RunLength(Streak(attempts, a.client)));
  }

  lemma TimedFront(attempts: seq<Attempt>, a: Attempt)
    requires Timed(attempts + [a])
    ensures Timed(attempts) && forall i :: 0 <= i < |attempts| ==> attempts[i].now <= a.now
  {
    var all := attempts + [a];
    forall i, j | 0 <= i <= j < |attempts| ensures attempts[i].now <= attempts[j].now {
      assert all[i].now <= all[j].now;
    }
    forall i | 0 <= i < |attempts| ensures attempts[i].now <= a.now { assert all[i].now <= all[|attempts|].now; }
  }

  lemma {:induction false} StreakIsTraffic(attempts: seq<Attempt>, client: string)
    ensures forall t :: t in Streak(attempts, client) ==>
              exists a :: a in attempts && a.client == client && !a.matches && a.now == t
  {
    if attempts != [] { StreakIsTraffic(attempts[..|attempts| - 1], client); }
  }

  // The right password gets in once the client has been quiet for five minutes, or if
  // fewer than five wrong ones were checked since its last success.
  lemma RightPasswordGetsIn(attempts: seq<Attempt>, a: Attempt)
    requires Timed(attempts + [a]) && a.matches
    requires (forall b :: b in attempts && b.client == a.client ==> b.now + 300.0 <= a.now)
             || |Streak(attempts, a.client)| < 5
    ensures Answer(TableAfter(attempts), a) == LoggedIn
  {
    var times := Streak(attempts, a.client);
    TimedFront(attempts, a);
    AnswerIff(attempts, a);
    StreakIsTraffic(attempts, a.client);
    DelayIsShort(RunLength(times));
    RunIsShort(times);
    DelayIsCappedDoubling(RunLength(times));
    if times != [] { assert times[|times| - 1] in times; }
  }

  lemma {:induction false} RunIsShort(times: seq<real>)
    ensures RunLength(times) <= |times|
  {
    if |times| > 1 { RunIsShort(times[..|times| - 1]); }
  }

  // No entry outlives its day by more than the time to the next attempt.
  lemma TableIsRecent(attempts: seq<Attempt>)
    requires Timed(attempts) && attempts != []
    ensures var now := attempts[|attempts| - 1].now;
            forall key :: key in TableAfter(attempts) ==> now - TableAfter(attempts)[key].lastSeen <= ENTRY_TTL_SECONDS
  {}

  // The streak so far has lasted at least what its failures since the last sweep of
  // its entry cost, and 300 s for every failure before that; without an entry, a
  // day has passed since the last failure.
  ghost predicate Paid(times: seq<real>, table: Table, client: string, now: real) {
    if times == [] then client !in table
    else
      var n := |times|;
      var elapsed := times[n - 1] - times[0];
      if client in table then
        var c := table[client].failCount;
        c <= n && table[client].lastSeen == times[n - 1] && elapsed >= (300 * (n - c) + Cost(c)) as real
      else elapsed >= (300 * n - 3390) as real && now - times[n - 1] > ENTRY_TTL_SECONDS
  }

  function StreakAfter(times: seq<real>, client: string, a: Attempt): seq<real> {
    if a.client != client || LockedOut(times, a.now) then times else if a.matches then [] else times + [a.now]
  }

  lemma SweepKeepsPaid(times: seq<real>, table: Table, client: string, before: real, now: real)
    requires Paid(times, table, client, before) && before <= now
    requires client in table ==> EntryExact(table[client])
    ensures Paid(times, Swept(table, now), client, now)
  {
    if times != [] && client in table {
      CostIsLinear(table[client].failCount);
    }
  }

  lemma AttemptKeepsPaid(times: seq<real>, table: Table, client: string, before: real, a: Attempt)
    requires Paid(times, table, client, before) && Mirrors(table, client, times, before) && before <= a.now
    requires client in table ==> EntryExact(table[client])
    ensures Paid(StreakAfter(times, client, a), After(table, a), client, a.now)
  {
    SweepKeepsPaid(times, table, client, before, a.now);
    if a.client == client { MirrorAnswers(table, times, before, a); }
    if a.client == client && Answer(table, a).Wrong? && times != [] {
      var swept := Swept(table, a.now);
      var n := |times|;
      assert (times + [a.now])[0] == times[0] && (times + [a.now])[n] == a.now;
      var c := Failures(swept, client);
      if client in swept {
        assert Cost(c + 1) == Cost(c) + Delay(c);
        assert a.now - times[n - 1] >= Delay(c) as real;
        assert a.now - times[0] >= (300 * (n - c) + Cost(c) + Delay(c)) as real;
      } else {
        assert Cost(1) == 0;
      }
    }
  }

  lemma {:induction false} StreakIsPaid(attempts: seq<Attempt>, client: string)
    requires Timed(attempts) && attempts != []
    ensures Paid(Streak(attempts, client), TableAfter(attempts), client, attempts[|attempts| - 1].now)
  {
    var n := |attempts| - 1;
    var front := attempts[..n];
    EntriesExact(front);
    if n > 0 {
      StreakIsPaid(front, client);
      TableMirrorsStreak(front, client, front[n - 1].now);
      AttemptKeepsPaid(Streak(front, client), TableAfter(front), client, front[n - 1].now, attempts[n]);
    } else {
      AttemptKeepsPaid([], map[], client, attempts[n].now, attempts[n]);
    }
  }

  // However the client and others behave, the (13 + k)-th wrong password in a row
  // that is checked at all comes at least 510 + 300 k seconds after the first.
  lemma {:induction false} StreakIsSlow(attempts: seq<Attempt>, client: string, k: nat)
    requires Timed(attempts) && |Streak(attempts, client)| >= 13 + k
    ensures Streak(attempts, client)[12 + k] - Streak(attempts, client)[0] >= (510 + 300 * k) as real
  {
    var front := attempts[..|attempts| - 1];
    if |Streak(front, client)| >= 13 + k {
      StreakIsSlow(front, client, k);
    } else {
      StreakIsPaid(attempts, client);
      var table := TableAfter(attempts);
      assert |Streak(attempts, client)| == 13 + k;
      if client in table {
        CostIsLinear(table[client].failCount);
      }
    }
  }
}
