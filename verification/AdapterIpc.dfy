/** The adapter subprocess supervisor (meshsrv/adapter_ipc_client.py).

  Core shares one adapter process over a line pipe.  There is no request id on
  the wire: a reply belongs to a request only because nothing else is in flight.
  The first half models the tolerant reader loop; the second half models the
  processes, their pipes, the reader threads and the calling thread as steps that
  interleave in any order, and proves that requests and replies stay in step. */
module AdapterIpc {
  import opened Prelude

  const MAX_NON_JSON_LINES := 5
  const MAX_NON_JSON_BYTES := 4096

  // How call() treats a parsed reply: an ordinary reply, a reply that reports the
  // adapter's own timeout, or one whose "error" value is not an object.
  datatype ReplyKind = Ordinary | SelfTimeout | MalformedError

  // `answers` is the number of the call whose request produced the reply.  It is
  // not on the wire; it is what "in step" is about.
  datatype Payload = Payload(answers: nat, kind: ReplyKind)

  // One line of adapter output: blank after stripping, text that is not JSON
  // (with its raw length), or a JSON reply.
  datatype Line = Blank | Junk(size: nat) | Json(payload: Payload)

  datatype Status = Got(payload: Payload) | ProtocolError | Closed | ReadError

  // ---------------------------------------------------------------- reader loop

  function JunkLines(lines: seq<Line>): nat {
    if lines == [] then 0
    else JunkLines(lines[..|lines| - 1]) + if lines[|lines| - 1].Junk? then 1 else 0
  }

  function JunkBytes(lines: seq<Line>): nat {
    if lines == [] then 0
    else
      var last := lines[|lines| - 1];
      JunkBytes(lines[..|lines| - 1]) + if last.Junk? then last.size else 0
  }

  predicate Tolerable(lines: seq<Line>) {
    JunkLines(lines) <= MAX_NON_JSON_LINES && JunkBytes(lines) <= MAX_NON_JSON_BYTES
  }

  // None of the first n lines is a reply.
  predicate NoReply(lines: seq<Line>, n: nat)
    requires n <= |lines|
  {
    forall i :: 0 <= i < n ==> !lines[i].Json?
  }

  // What the loop promises about adapter output that is `lines` and then end of
  // file (or, with `fault`, a failing read): it stops after `used` lines.
  ghost predicate ReadOutcome(lines: seq<Line>, fault: bool, status: Status, used: nat) {
    && used <= |lines|
    && match status
       case Got(payload) =>
         && 0 < used && lines[used - 1] == Json(payload)
         && NoReply(lines, used - 1) && Tolerable(lines[..used - 1])
       case ProtocolError =>
         && 0 < used && NoReply(lines, used)
         && Tolerable(lines[..used - 1]) && !Tolerable(lines[..used])
       case Closed => !fault && used == |lines| && NoReply(lines, used) && Tolerable(lines[..used])
       case ReadError => fault && used == |lines| && NoReply(lines, used) && Tolerable(lines[..used])
  }

  method ReadLoop(lines: seq<Line>, fault: bool) returns (status: Status, used: nat)
    ensures ReadOutcome(lines, fault, status, used)
  {
    var badLines, badBytes := 0, 0;
    used := 0;
    while used < |lines|
      invariant used <= |lines|
      invariant NoReply(lines, used) && Tolerable(lines[..used])
      invariant badLines == JunkLines(lines[..used]) && badBytes == JunkBytes(lines[..used])
    {
      var raw := lines[used];
      used := used + 1;
      assert lines[..used][..used - 1] == lines[..used - 1];
      match raw {
        case Blank =>
        case Json(payload) => return Got(payload), used;
        case Junk(size) =>
          badLines := badLines + 1;
          badBytes := badBytes + size;
          if badLines > MAX_NON_JSON_LINES || badBytes > MAX_NON_JSON_BYTES {
            return ProtocolError, used;
          }
      }
    }
    status := if fault then ReadError else Closed;
  }

  lemma {:induction false} JunkGrows(lines: seq<Line>, i: nat, j: nat)
    requires i <= j <= |lines|
    ensures JunkLines(lines[..i]) <= JunkLines(lines[..j])
    ensures JunkBytes(lines[..i]) <= JunkBytes(lines[..j])
  {
    if i < j {
      JunkGrows(lines, i, j - 1);
      assert lines[..j][..j - 1] == lines[..j - 1];
    }
  }

  lemma StopsNoEarlier(lines: seq<Line>, fault: bool, s1: Status, u1: nat, s2: Status, u2: nat)
    requires ReadOutcome(lines, fault, s1, u1) && ReadOutcome(lines, fault, s2, u2)
    ensures u2 <= u1
  {
    if u1 < u2 && s1.ProtocolError? {
      JunkGrows(lines, u1, u2 - 1);
      JunkGrows(lines, u1, u2);
    }
  }

  // The promise leaves no freedom, so each implication in it is an "exactly when".
  lemma ReadOutcomeUnique(lines: seq<Line>, fault: bool, s1: Status, u1: nat, s2: Status, u2: nat)
    requires ReadOutcome(lines, fault, s1, u1) && ReadOutcome(lines, fault, s2, u2)
    ensures s1 == s2 && u1 == u2
  {
    StopsNoEarlier(lines, fault, s1, u1, s2, u2);
    StopsNoEarlier(lines, fault, s2, u2, s1, u1);
  }

  // ------------------------------------------------------------ the whole system

  // inbox: requests written and not yet answered; outbox: output nobody has read.
  datatype Proc = Proc(alive: bool, inbox: seq<nat>, outbox: seq<Line>)

  // The reader thread of one call, bound to the process of that call.
  datatype Reader = Reader(proc: nat, badLines: nat, badBytes: nat, box: Option<Status>)

  // Idle: the process lock is free.  Launched: the caller holds it with a running
  // process.  Waiting: the request is written and readers[reader] should answer.
  datatype Phase = Idle | Launched | Waiting(reader: nat)

  datatype Code = AdapterUnavailable | Timeout | AdapterProtocolError | Unexpected

  datatype Outcome = Returned(payload: Payload) | Raised(code: Code)

  // procs holds every process ever spawned, so a killed one whose reader thread is
  // still alive stays in the picture.  The call in progress has number |log|.
  datatype Sys = Sys(procs: seq<Proc>, cur: Option<nat>, readers: seq<Reader>, phase: Phase, log: seq<Outcome>)

  const Init := Sys([], None, [], Idle, [])

  // `killed` says whether the SIGKILL took effect: _kill_locked() forgets the
  // process even when killing it raised.
  datatype Step =
    | Answer(p: nat, kind: ReplyKind)
    | Noise(p: nat, line: Line)
    | Die(p: nat)
    | Begin
    | SpawnFail
    | SpawnThenFail
    | Write
    | WriteFail(delivered: bool, killed: bool)
    | WriteNoReader
    | Read(r: nat)
    | ReadFault(r: nat)
    | Deadline(killed: bool)
    | Finish(killed: bool)

  function Kill(s: Sys, killed: bool): Sys {
    if s.cur.Some? && s.cur.value < |s.procs| && killed
    then s.(cur := None, procs := s.procs[s.cur.value := s.procs[s.cur.value].(alive := false)])
    else s.(cur := None)
  }

  function Conclude(s: Sys, outcome: Outcome): Sys {
    s.(phase := Idle, log := s.log + [outcome])
  }

  // One line, or end of file, seen by a reader thread.
  function Consume(r: Reader, line: Line): Reader {
    match line
    case Blank => r
    case Json(payload) => r.(box := Some(Got(payload)))
    case Junk(size) =>
      var r' := r.(badLines := r.badLines + 1, badBytes := r.badBytes + size);
      if r'.badLines > MAX_NON_JSON_LINES || r'.badBytes > MAX_NON_JSON_BYTES
      then r'.(box := Some(ProtocolError))
      else r'
  }

  predicate CurrentAlive(s: Sys) {
    s.cur.Some? && s.cur.value < |s.procs| && s.procs[s.cur.value].alive
  }

  predicate Reading(s: Sys, r: nat) {
    r < |s.readers| && s.readers[r].box.None? && s.readers[r].proc < |s.procs|
  }

  function Written(s: Sys): Sys
    requires s.cur.Some? && s.cur.value < |s.procs|
  {
    var proc := s.procs[s.cur.value];
    s.(procs := s.procs[s.cur.value := proc.(inbox := proc.inbox + [|s.log|])])
  }

  // A step that is not enabled changes nothing, so every sequence of steps is a run.
  function Next(s: Sys, step: Step): Sys {
    match step
    case Answer(p, kind) =>
      if p < |s.procs| && s.procs[p].alive && s.procs[p].inbox != [] then
        var proc := s.procs[p];
        s.(procs := s.procs[p := proc.(inbox := proc.inbox[1..],
                                       outbox := proc.outbox + [Json(Payload(proc.inbox[0], kind))])])
      else s
    case Noise(p, line) =>
      if p < |s.procs| && s.procs[p].alive && !line.Json?
      then s.(procs := s.procs[p := s.procs[p].(outbox := s.procs[p].outbox + [line])])
      else s
    case Die(p) =>
      if p < |s.procs| then s.(procs := s.procs[p := s.procs[p].(alive := false)]) else s
    case Begin =>
      if !s.phase.Idle? then s
      else if CurrentAlive(s) then s.(phase := Launched)
      else s.(procs := s.procs + [Proc(true, [], [])], cur := Some(|s.procs|), phase := Launched)
    case SpawnFail =>
      if s.phase.Idle? && !CurrentAlive(s) then Conclude(s, Raised(AdapterUnavailable)) else s
    case SpawnThenFail =>
      if s.phase.Idle? && !CurrentAlive(s)
      then Conclude(s.(procs := s.procs + [Proc(true, [], [])], cur := Some(|s.procs|)), Raised(AdapterUnavailable))
      else s
    case Write =>
      if s.phase.Launched? && s.cur.Some? && s.cur.value < |s.procs|
      then Written(s).(readers := s.readers + [Reader(s.cur.value, 0, 0, None)], phase := Waiting(|s.readers|))
      else s
    case WriteFail(delivered, killed) =>
      if s.phase.Launched? && s.cur.Some? && s.cur.value < |s.procs|
      then Conclude(Kill(if delivered then Written(s) else s, killed), Raised(AdapterUnavailable))
      else s
    case WriteNoReader =>
      if s.phase.Launched? && s.cur.Some? && s.cur.value < |s.procs|
      then Conclude(Written(s), Raised(Unexpected))
      else s
    case Read(r) =>
      if !Reading(s, r) then s
      else
        var reader := s.readers[r];
        var proc := s.procs[reader.proc];
        if proc.outbox != [] then
          s.(readers := s.readers[r := Consume(reader, proc.outbox[0])],
             procs := s.procs[reader.proc := proc.(outbox := proc.outbox[1..])])
        else if !proc.alive then s.(readers := s.readers[r := reader.(box := Some(Closed))])
        else s
    case ReadFault(r) =>
      if Reading(s, r) then s.(readers := s.readers[r := s.readers[r].(box := Some(ReadError))]) else s
    case Deadline(killed) =>
      if s.phase.Waiting? && s.phase.reader < |s.readers| && s.readers[s.phase.reader].box.None?
      then Conclude(Kill(s, killed), Raised(Timeout))
      else s
    case Finish(killed) =>
      if s.phase.Waiting? && s.phase.reader < |s.readers| && s.readers[s.phase.reader].box.Some? then
        match s.readers[s.phase.reader].box.value
        case ReadError => Conclude(Kill(s, killed), Raised(AdapterUnavailable))
        case Closed => Conclude(Kill(s, killed), Raised(AdapterUnavailable))
        case ProtocolError => Conclude(Kill(s, killed), Raised(AdapterProtocolError))
        case Got(payload) =>
          match payload.kind
          case Ordinary => Conclude(s, Returned(payload))
          case SelfTimeout => Conclude(Kill(s, killed), Returned(payload))
          case MalformedError => Conclude(s, Raised(Unexpected))
      else s
  }

  // A fresh reader of process p after it has seen these lines.
  function Feed(p: nat, lines: seq<Line>): Reader {
    if lines == [] then Reader(p, 0, 0, None)
    else
      var r := Feed(p, lines[..|lines| - 1]);
      if r.box.None? then Consume(r, lines[|lines| - 1]) else r
  }

  // Taken one line at a time, the reader thread does what the loop does: it is
  // undecided while the loop would still read, and decides as the loop decides.
  lemma {:induction false} ReaderFollowsLoop(p: nat, lines: seq<Line>, fault: bool)
    ensures var r := Feed(p, lines);
            match r.box
            case None => NoReply(lines, |lines|) && Tolerable(lines)
                         && r.badLines == JunkLines(lines) && r.badBytes == JunkBytes(lines)
            case Some(status) => (status.Got? || status.ProtocolError?)
                                 && exists used: nat :: ReadOutcome(lines, fault, status, used)
  {
    if lines != [] {
      var n := |lines|;
      ReaderFollowsLoop(p, lines[..n - 1], fault);
      var r := Feed(p, lines[..n - 1]);
      assert lines[..n] == lines;
      if r.box.Some? {
        var used: nat :| ReadOutcome(lines[..n - 1], fault, r.box.value, used);
        assert lines[..n - 1][..used] == lines[..used] && lines[..n - 1][..used - 1] == lines[..used - 1];
        assert ReadOutcome(lines, fault, r.box.value, used);
      } else if Feed(p, lines).box.Some? {
        assert ReadOutcome(lines, fault, Feed(p, lines).box.value, n);
      }
    }
  }

  function Exec(s: Sys, steps: seq<Step>): Sys
    decreases |steps|
  {
    if steps == [] then s else Exec(Next(s, steps[0]), steps[1..])
  }

  // ------------------------------------------------------------------ invariant

  // Call numbers answered by the JSON lines of some output, in order.
  function Replies(lines: seq<Line>): seq<nat> {
    if lines == [] then []
    else (if lines[0].Json? then [lines[0].payload.answers] else []) + Replies(lines[1..])
  }

  lemma {:induction false} RepliesAppend(lines: seq<Line>, line: Line)
    ensures Replies(lines + [line]) == Replies(lines) + if line.Json? then [line.payload.answers] else []
  {
    if lines == [] {
      assert lines + [line] == [line];
    } else {
      var rest := lines[1..];
      RepliesAppend(rest, line);
      assert (lines + [line])[1..] == rest + [line];
      var head := if lines[0].Json? then [lines[0].payload.answers] else [];
      assert Replies(lines) == head + Replies(rest) && Replies(lines + [line]) == head + Replies(rest + [line]);
    }
  }

  // Everything a process still owes: replies written but unread, then requests
  // not yet answered.
  function Owed(proc: Proc): seq<nat> {
    Replies(proc.outbox) + proc.inbox
  }

  // No live reader thread but `except` is attached to process p.
  ghost predicate Unread(s: Sys, p: nat, except: Option<nat>) {
    forall r :: 0 <= r < |s.readers| && s.readers[r].proc == p && s.readers[r].box.None? ==> except == Some(r)
  }

  ghost predicate WellIndexed(s: Sys) {
    && (s.cur.Some? ==> s.cur.value < |s.procs|)
    && forall r :: 0 <= r < |s.readers| ==> s.readers[r].proc < |s.procs|
  }

  // While the lock is free the current process owes nothing and nobody reads it.
  ghost predicate Quiet(s: Sys)
    requires WellIndexed(s)
  {
    s.cur.Some? ==> Owed(s.procs[s.cur.value]) == [] && Unread(s, s.cur.value, None)
  }

  // During a call the box of its reader, the pipe and the adapter together hold
  // exactly this call's answer, and no other reader can take it.
  ghost predicate InFlight(s: Sys, r: nat)
    requires WellIndexed(s)
  {
    && r < |s.readers| && s.cur == Some(s.readers[r].proc) && Unread(s, s.readers[r].proc, Some(r))
    && var owed := Owed(s.procs[s.readers[r].proc]);
       match s.readers[r].box
       case None => owed == [|s.log|]
       case Some(Got(payload)) => payload.answers == |s.log| && owed == []
       case Some(_) => true
  }

  ghost predicate LogInStep(log: seq<Outcome>) {
    forall k :: 0 <= k < |log| && log[k].Returned? ==> log[k].payload.answers == k
  }

  ghost predicate Inv(s: Sys) {
    && WellIndexed(s)
    && LogInStep(s.log)
    && match s.phase
       case Waiting(r) => InFlight(s, r)
       case Launched => s.cur.Some? && Quiet(s)
       case Idle => Quiet(s)
  }

  // Replacing a process by one that owes the same keeps everything.
  lemma SameDebt(s: Sys, p: nat, proc: Proc)
    requires Inv(s) && p < |s.procs| && Owed(proc) == Owed(s.procs[p])
    ensures Inv(s.(procs := s.procs[p := proc]))
  {
    var s' := s.(procs := s.procs[p := proc]);
    assert forall q :: 0 <= q < |s.procs| ==> Owed(s'.procs[q]) == Owed(s.procs[q]);
    assert forall q: nat, e :: Unread(s, q, e) ==> Unread(s', q, e);
  }

  lemma AnswerKeepsInv(s: Sys, p: nat, kind: ReplyKind)
    requires Inv(s)
    ensures Inv(Next(s, Answer(p, kind)))
  {
    if p < |s.procs| && s.procs[p].alive && s.procs[p].inbox != [] {
      var proc := s.procs[p];
      var reply := Json(Payload(proc.inbox[0], kind));
      RepliesAppend(proc.outbox, reply);
      var proc' := proc.(inbox := proc.inbox[1..], outbox := proc.outbox + [reply]);
      assert Owed(proc') == Owed(proc);
      SameDebt(s, p, proc');
    }
  }

  lemma NoiseKeepsInv(s: Sys, p: nat, line: Line)
    requires Inv(s)
    ensures Inv(Next(s, Noise(p, line)))
  {
    if p < |s.procs| && s.procs[p].alive && !line.Json? {
      var proc := s.procs[p];
      RepliesAppend(proc.outbox, line);
      SameDebt(s, p, proc.(outbox := proc.outbox + [line]));
    }
  }

  lemma WriteKeepsInv(s: Sys)
    requires Inv(s)
    ensures Inv(Next(s, Write))
  {
    if s.phase.Launched? {
      var s' := Next(s, Write);
      var proc := s.procs[s.cur.value];
      assert Owed(s'.procs[s.cur.value]) == Owed(proc) + [|s.log|];
    }
  }

  lemma OwedHead(proc: Proc)
    requires proc.outbox != []
    ensures Owed(proc) == (if proc.outbox[0].Json? then [proc.outbox[0].payload.answers] else [])
                          + Owed(proc.(outbox := proc.outbox[1..]))
  {}

  lemma ReadKeepsInv(s: Sys, r: nat)
    requires Inv(s)
    ensures Inv(Next(s, Read(r)))
  {
    if Reading(s, r) && s.procs[s.readers[r].proc].outbox != [] {
      var p := s.readers[r].proc;
      var proc := s.procs[p];
      var head := proc.outbox[0];
      var proc' := proc.(outbox := proc.outbox[1..]);
      OwedHead(proc);
      if s.cur == Some(p) {
        assert s.phase == Waiting(r);
        assert Owed(proc) == [|s.log|];
        if head.Json? {
          assert Owed(proc)[0] == head.payload.answers;
          assert |Owed(proc')| == 0;
        }
      }
    }
  }

  lemma KeepsInv(s: Sys, step: Step)
    requires Inv(s) && !step.WriteNoReader?
    ensures Inv(Next(s, step))
  {
    match step
    case Answer(p, kind) => AnswerKeepsInv(s, p, kind);
    case Noise(p, line) => NoiseKeepsInv(s, p, line);
    case Die(p) => if p < |s.procs| { SameDebt(s, p, s.procs[p].(alive := false)); }
    case Read(r) => ReadKeepsInv(s, r);
    case Write => WriteKeepsInv(s);
    case Begin => StartKeepsInv(s, step);
    case SpawnFail => StartKeepsInv(s, step);
    case SpawnThenFail => StartKeepsInv(s, step);
    case WriteFail(delivered, killed) => FailureKeepsInv(s, step);
    case Deadline(killed) => FailureKeepsInv(s, step);
    case ReadFault(r) =>
    case Finish(killed) => FinishKeepsInv(s, killed);
  }

  lemma StartKeepsInv(s: Sys, step: Step)
    requires Inv(s) && (step.Begin? || step.SpawnFail? || step.SpawnThenFail?)
    ensures Inv(Next(s, step))
  {}

  lemma FailureKeepsInv(s: Sys, step: Step)
    requires Inv(s) && (step.WriteFail? || step.Deadline?)
    ensures Inv(Next(s, step))
  {}

  lemma FinishKeepsInv(s: Sys, killed: bool)
    requires Inv(s)
    ensures Inv(Next(s, Finish(killed)))
  {}

  lemma {:induction false} RunKeepsInv(s: Sys, steps: seq<Step>)
    requires Inv(s) && forall i :: 0 <= i < |steps| ==> !steps[i].WriteNoReader?
    ensures Inv(Exec(s, steps))
    decreases |steps|
  {
    if steps != [] {
      KeepsInv(s, steps[0]);
      RunKeepsInv(Next(s, steps[0]), steps[1..]);
    }
  }

  // Over any run from start-up in which reader threads can be created: every
  // payload a call returned answers that very call, and whenever the lock is free
  // the process the next call will use has no unanswered request and no unread reply.
  lemma RepliesInStep(steps: seq<Step>)
    requires forall i :: 0 <= i < |steps| ==> !steps[i].WriteNoReader?
    ensures var s := Exec(Init, steps);
            && (forall k :: 0 <= k < |s.log| && s.log[k].Returned? ==> s.log[k].payload.answers == k)
            && (s.phase.Idle? && s.cur.Some? ==>
                  && s.cur.value < |s.procs| && s.procs[s.cur.value].inbox == []
                  && Replies(s.procs[s.cur.value].outbox) == [])
  {
    RunKeepsInv(Init, steps);
  }

  lemma ExecCons(s: Sys, step: Step, rest: seq<Step>)
    ensures Exec(s, [step] + rest) == Exec(Next(s, step), rest)
  {
    assert ([step] + rest)[1..] == rest;
  }

  // -------------------------------------------------------------- out of step, when

  // The next call to end, number |s.log|, is given the answer to call a.
  ghost predicate Hands(s: Sys, a: nat, steps: seq<Step>) {
    var log := Exec(s, steps).log;
    |s.log| < |log| && log[|s.log|].Returned? && log[|s.log|].payload.answers == a
  }

  ghost predicate CanHand(s: Sys, a: nat) {
    exists steps :: Hands(s, a, steps)
  }

  lemma ByStep(s: Sys, step: Step, a: nat)
    requires CanHand(Next(s, step), a) && Next(s, step).log == s.log
    ensures CanHand(s, a)
  {
    var rest :| Hands(Next(s, step), a, rest);
    ExecCons(s, step, rest);
    assert Hands(s, a, [step] + rest);
  }

  // A call waiting with the answer to a in its box ends by returning it.
  lemma HandsByFinish(s: Sys, r: nat, a: nat)
    requires s.phase == Waiting(r) && r < |s.readers| && s.readers[r].box == Some(Got(Payload(a, Ordinary)))
    ensures CanHand(s, a)
  {
    assert [Finish(true)] + [] == [Finish(true)];
    ExecCons(s, Finish(true), []);
    assert Hands(s, a, [Finish(true)]);
  }

  lemma TolerablePart(lines: seq<Line>, n: nat)
    requires n <= |lines| && Tolerable(lines)
    ensures Tolerable(lines[..n])
  {
    JunkGrows(lines, n, |lines|);
    assert lines[..|lines|] == lines;
  }

  // Reading on over tolerable noise, to the answer the adapter then gives to a.
  lemma {:induction false} HandsOverNoise(s: Sys, r: nat, seen: seq<Line>, a: nat)
    requires s.phase == Waiting(r) && r < |s.readers| && s.cur == Some(s.readers[r].proc) && CurrentAlive(s)
    requires s.readers[r] == Feed(s.readers[r].proc, seen)
    requires var proc := s.procs[s.readers[r].proc];
             && proc.inbox != [] && proc.inbox[0] == a
             && NoReply(seen + proc.outbox, |seen + proc.outbox|) && Tolerable(seen + proc.outbox)
    ensures CanHand(s, a)
    decreases |s.procs[s.readers[r].proc].outbox|
  {
    var p := s.readers[r].proc;
    var outbox := s.procs[p].outbox;
    TolerablePart(seen + outbox, |seen|);
    assert (seen + outbox)[..|seen|] == seen;
    assert forall i :: 0 <= i < |seen| ==> seen[i] == (seen + outbox)[i];
    NoiseLeavesUndecided(p, seen);
    if outbox == [] {
      var answered := Next(s, Answer(p, Ordinary));
      assert answered.procs[p].outbox == [Json(Payload(a, Ordinary))];
      var got := Next(answered, Read(r));
      HandsByFinish(got, r, a);
      ByStep(answered, Read(r), a);
      ByStep(s, Answer(p, Ordinary), a);
    } else {
      var next := Next(s, Read(r));
      assert (seen + [outbox[0]])[..|seen|] == seen;
      assert seen + [outbox[0]] + outbox[1..] == seen + outbox;
      HandsOverNoise(next, r, seen + [outbox[0]], a);
      ByStep(s, Read(r), a);
    }
  }

  lemma {:induction false} NoiseLeavesUndecided(p: nat, seen: seq<Line>)
    requires NoReply(seen, |seen|) && Tolerable(seen)
    ensures Feed(p, seen).box.None? && Feed(p, seen).proc == p
  {
    FeedKeepsProc(p, seen);
    if seen != [] {
      var front := seen[..|seen| - 1];
      TolerablePart(seen, |front|);
      NoiseLeavesUndecided(p, front);
      ReaderFollowsLoop(p, front, false);
    }
  }

  lemma {:induction false} FeedKeepsProc(p: nat, lines: seq<Line>)
    ensures Feed(p, lines).proc == p
  {
    if lines != [] { FeedKeepsProc(p, lines[..|lines| - 1]); }
  }

  // The other direction: until the next call ends, either it cannot meet anything but
  // its own answer, or it reads output that passes a limit before any reply.

  // The invariant without the log, and with a dead process let go.
  ghost predicate Fresh(s: Sys) {
    && WellIndexed(s)
    && match s.phase
       case Waiting(r) => InFlight(s, r)
       case Launched => s.cur.Some? && Quiet(s)
       case Idle => !CurrentAlive(s) || Quiet(s)
  }

  ghost predicate PassesLimit(lines: seq<Line>) {
    exists n :: 0 <= n <= |lines| && NoReply(lines, n) && !Tolerable(lines[..n])
  }

  ghost predicate Doomed(s: Sys, p: nat) {
    && WellIndexed(s) && s.cur == Some(p)
    && if s.phase.Waiting? then
         && s.phase.reader < |s.readers| && s.readers[s.phase.reader].proc == p && Unread(s, p, Some(s.phase.reader))
         && DoomedReader(s.readers[s.phase.reader], s.procs[p].outbox)
       else Unread(s, p, None) && PassesLimit(s.procs[p].outbox)
  }

  // What it has read and what it can still read pass a limit before any reply.
  ghost predicate DoomedReader(reader: Reader, outbox: seq<Line>) {
    match reader.box
    case None => exists seen :: reader == Feed(reader.proc, seen) && PassesLimit(seen + outbox)
    case Some(status) => !status.Got?
  }

  // What the end of a call adds to the log, if this step is one.
  predicate InStep(s: Sys, s': Sys) {
    || s'.log == s.log
    || (|s'.log| == |s.log| + 1 && s'.log[..|s.log|] == s.log
        && (s'.log[|s.log|].Returned? ==> s'.log[|s.log|].payload.answers == |s.log|))
  }

  predicate Ends(step: Step) {
    || step.SpawnFail? || step.SpawnThenFail? || step.WriteFail? || step.WriteNoReader?
    || step.Deadline? || step.Finish?
  }

  lemma LogStays(s: Sys, step: Step, log: seq<Outcome>)
    requires |log| == |s.log| && !Ends(step)
    ensures Next(s, step).log == s.log && Next(s.(log := log), step) == Next(s, step).(log := log)
  {}

  // How a call that this step ends is logged.
  ghost predicate GainsAlike(s: Sys, step: Step, log: seq<Outcome>) {
    var s', t := Next(s, step), Next(s.(log := log), step);
    t == s'.(log := t.log)
    && ((s'.log == s.log && t.log == log) || exists o :: s'.log == s.log + [o] && t.log == log + [o])
  }

  lemma LogGains(s: Sys, step: Step, log: seq<Outcome>)
    requires |log| == |s.log| && Ends(step)
    ensures GainsAlike(s, step, log)
  {
    match step
    case Finish(killed) => FinishGains(s, killed, log);
    case _ =>
  }

  lemma FinishGains(s: Sys, killed: bool, log: seq<Outcome>)
    requires |log| == |s.log|
    ensures GainsAlike(s, Finish(killed), log)
  {}

  // The log is only appended to, and any log of the same length gives the same step.
  lemma LogIsCarried(s: Sys, step: Step, log: seq<Outcome>)
    requires |log| == |s.log|
    ensures var s', t := Next(s, step), Next(s.(log := log), step);
            t == s'.(log := t.log)
            && ((s'.log == s.log && t.log == log) || exists o :: s'.log == s.log + [o] && t.log == log + [o])
  {
    if Ends(step) { LogGains(s, step, log); } else { LogStays(s, step, log); }
  }

  lemma LiveFreshStep(s: Sys, step: Step)
    requires Fresh(s) && !step.WriteNoReader? && (s.phase.Idle? ==> Quiet(s))
    ensures Fresh(Next(s, step)) && InStep(s, Next(s, step))
  {
    var log := seq(|s.log|, _ => Raised(Unexpected));
    LogIsCarried(s, step, log);
    assert Inv(s.(log := log));
    KeepsInv(s.(log := log), step);
    var s', t := Next(s, step), Next(s.(log := log), step);
    if s'.log != s.log {
      var o :| s'.log == s.log + [o] && t.log == log + [o];
      assert t.log[|log|] == o;
    }
    assert t == s'.(log := t.log) && Fresh(t);
  }

  lemma DeadFreshStep(s: Sys, step: Step)
    requires Fresh(s) && s.phase.Idle? && !CurrentAlive(s)
    ensures Fresh(Next(s, step)) && InStep(s, Next(s, step))
  {}

  lemma FreshStep(s: Sys, step: Step)
    requires Fresh(s)
    ensures InStep(s, Next(s, step))
    ensures Next(s, step).log == s.log ==> Fresh(Next(s, step))
  {
    if s.phase.Idle? && !CurrentAlive(s) {
      DeadFreshStep(s, step);
    } else if !step.WriteNoReader? {
      LiveFreshStep(s, step);
    }
  }

  lemma PassesLimitStays(lines: seq<Line>, more: seq<Line>)
    requires PassesLimit(lines)
    ensures PassesLimit(lines + more)
  {
    var n :| 0 <= n <= |lines| && NoReply(lines, n) && !Tolerable(lines[..n]);
    assert (lines + more)[..n] == lines[..n];
  }

  // Output whose first reply is within the limits passes none of them before it.
  lemma ReplyWithinLimits(seen: seq<Line>, more: seq<Line>, payload: Payload, used: nat)
    requires ReadOutcome(seen, false, Got(payload), used)
    ensures !PassesLimit(seen + more)
  {
    forall n | 0 <= n <= |seen + more| && NoReply(seen + more, n) ensures Tolerable((seen + more)[..n]) {
      assert (seen + more)[used - 1] == seen[used - 1];
      JunkGrows(seen, n, used - 1);
      assert (seen + more)[..n] == seen[..n];
    }
  }

  // Fed past a limit, a reader that has decided has no reply.
  lemma DecidedWithoutReply(p: nat, seen: seq<Line>, more: seq<Line>)
    requires PassesLimit(seen + more) && Feed(p, seen).box.Some?
    ensures !Feed(p, seen).box.value.Got?
  {
    ReaderFollowsLoop(p, seen, false);
    if Feed(p, seen).box.value.Got? {
      var used: nat :| ReadOutcome(seen, false, Feed(p, seen).box.value, used);
      ReplyWithinLimits(seen, more, Feed(p, seen).box.value.payload, used);
    }
  }

  lemma DoomedRead(s: Sys, p: nat, r: nat)
    requires Doomed(s, p) && s.phase.Waiting?
    ensures Doomed(Next(s, Read(r)), p)
  {
    var w := s.phase.reader;
    var s' := Next(s, Read(r));
    if r == w && Reading(s, r) && s.procs[p].outbox != [] {
      var outbox := s.procs[p].outbox;
      var seen :| s.readers[r] == Feed(p, seen) && PassesLimit(seen + outbox);
      var more := seen + [outbox[0]];
      assert more[..|seen|] == seen && more + outbox[1..] == seen + outbox;
      assert s'.readers[r] == Feed(p, more) && s'.procs[p].outbox == outbox[1..];
      if s'.readers[r].box.Some? { DecidedWithoutReply(p, more, outbox[1..]); }
    }
  }

  lemma DoomedOutput(s: Sys, p: nat, step: Step)
    requires Doomed(s, p) && (step.Answer? || step.Noise?)
    ensures Doomed(Next(s, step), p)
  {
    var s' := Next(s, step);
    if s' != s && step.p == p {
      var outbox := s.procs[p].outbox;
      var line := s'.procs[p].outbox[|outbox|];
      assert s'.procs[p].outbox == outbox + [line];
      if s.phase.Waiting? {
        if s.readers[s.phase.reader].box.None? {
          var seen :| s.readers[s.phase.reader] == Feed(p, seen) && PassesLimit(seen + outbox);
          PassesLimitStays(seen + outbox, [line]);
          assert seen + outbox + [line] == seen + (outbox + [line]);
        }
      } else {
        PassesLimitStays(outbox, [line]);
      }
    }
  }

  lemma DoomedWrite(s: Sys, p: nat)
    requires Doomed(s, p)
    ensures Doomed(Next(s, Write), p)
  {
    var s' := Next(s, Write);
    if s' != s {
      var reader := s'.readers[|s.readers|];
      assert [] + s'.procs[p].outbox == s'.procs[p].outbox == s.procs[p].outbox;
      assert reader == Feed(reader.proc, []) && DoomedReader(reader, s'.procs[p].outbox);
    }
  }

  lemma DoomedStep(s: Sys, p: nat, step: Step)
    requires Doomed(s, p) && !(s.phase.Idle? && !CurrentAlive(s))
    ensures InStep(s, Next(s, step))
    ensures Next(s, step).log == s.log ==> Doomed(Next(s, step), p)
  {
    match step
    case Answer(_, _) => DoomedOutput(s, p, step);
    case Noise(_, _) => DoomedOutput(s, p, step);
    case Write => DoomedWrite(s, p);
    case Read(r) => if s.phase.Waiting? { DoomedRead(s, p, r); }
    case _ => if Ends(step) { DoomedEnd(s, p, step); } else { DoomedMove(s, p, step); }
  }

  lemma DoomedEnd(s: Sys, p: nat, step: Step)
    requires Doomed(s, p) && Ends(step) && !(s.phase.Idle? && !CurrentAlive(s))
    ensures InStep(s, Next(s, step)) && (Next(s, step).log == s.log ==> Next(s, step) == s)
  {}

  lemma DoomedMove(s: Sys, p: nat, step: Step)
    requires Doomed(s, p) && (step.Die? || step.Begin? || step.ReadFault?) && !(s.phase.Idle? && !CurrentAlive(s))
    ensures Next(s, step).log == s.log && Doomed(Next(s, step), p)
  {}

  lemma {:induction false} LogGrows(s: Sys, steps: seq<Step>)
    ensures |s.log| <= |Exec(s, steps).log| && Exec(s, steps).log[..|s.log|] == s.log
    decreases |steps|
  {
    if steps != [] {
      LogIsCarried(s, steps[0], s.log);
      LogGrows(Next(s, steps[0]), steps[1..]);
    }
  }

  lemma {:induction false} NeverHands(s: Sys, p: nat, a: nat, steps: seq<Step>)
    requires (Fresh(s) || Doomed(s, p)) && a != |s.log|
    ensures !Hands(s, a, steps)
    decreases |steps|
  {
    if steps != [] {
      var next := Next(s, steps[0]);
      if !Fresh(s) { DoomedStep(s, p, steps[0]); } else { FreshStep(s, steps[0]); }
      if next.log == s.log {
        NeverHands(next, p, a, steps[1..]);
      } else {
        LogGrows(next, steps[1..]);
        assert Exec(s, steps).log[|s.log|] == next.log[|s.log|];
      }
    }
  }

  // The invariant is what keeps calls in step.  If the lock is free and the current
  // process owes an answer to call a, behind noise only, then over all later steps the
  // next call can be given that answer exactly when the process is alive and its
  // unread noise is within both limits.
  lemma DebtIsReturnedIff(s: Sys, a: nat)
    requires WellIndexed(s) && s.phase.Idle? && s.cur.Some? && Unread(s, s.cur.value, None) && a != |s.log|
    requires var proc := s.procs[s.cur.value];
             proc.inbox != [] && proc.inbox[0] == a && NoReply(proc.outbox, |proc.outbox|)
    ensures CanHand(s, a) <==> CurrentAlive(s) && Tolerable(s.procs[s.cur.value].outbox)
  {
    var p := s.cur.value;
    var outbox := s.procs[p].outbox;
    if CurrentAlive(s) && Tolerable(outbox) {
      var launched := Next(s, Begin);
      var waiting := Next(launched, Write);
      assert [] + outbox == outbox && waiting.procs[p].inbox[0] == a;
      HandsOverNoise(waiting, |s.readers|, [], a);
      ByStep(launched, Write, a);
      ByStep(s, Begin, a);
    } else {
      if CurrentAlive(s) {
        assert outbox[..|outbox|] == outbox && PassesLimit(outbox) && Doomed(s, p);
      }
      forall steps ensures !Hands(s, a, steps) { NeverHands(s, p, a, steps); }
    }
  }

  // The step the safety theorem excludes is real: the reader thread is started outside
  // every try block, so when it cannot be created the request stays with the adapter.
  // From any quiet moment, call n can fail that way, and call n + 1 can then be given
  // the answer to call n exactly when the process is a new one or its unread noise is
  // within both limits.
  lemma ThreadExhaustionBreaksStepIff(s: Sys)
    requires Inv(s) && s.phase.Idle?
    ensures var failed := Next(Next(s, Begin), WriteNoReader);
            && failed.phase.Idle? && failed.log == s.log + [Raised(Unexpected)]
            && (CanHand(failed, |s.log|)
                <==> !CurrentAlive(s) || Tolerable(s.procs[s.cur.value].outbox))
  {
    var failed := Next(Next(s, Begin), WriteNoReader);
    var p := failed.cur.value;
    if CurrentAlive(s) { NoRepliesNoJson(s.procs[p].outbox); }
    assert failed.procs[p].inbox == [|s.log|];
    DebtIsReturnedIff(failed, |s.log|);
  }

  lemma {:induction false} NoRepliesNoJson(lines: seq<Line>)
    requires Replies(lines) == []
    ensures NoReply(lines, |lines|)
  {
    if lines != [] {
      NoRepliesNoJson(lines[1..]);
      assert forall i :: 0 < i < |lines| ==> lines[i] == lines[1..][i - 1];
    }
  }

  // -------------------------------------------------------------- how a call ends

  // What the caller makes of its reader's verdict, and whether it kills the adapter.
  lemma FinishTells(s: Sys, r: nat, killed: bool)
    requires s.phase == Waiting(r) && r < |s.readers| && s.readers[r].box.Some?
    requires s.cur.Some? && s.cur.value < |s.procs|
    ensures var t := Next(s, Finish(killed));
            && t.phase == Idle && |t.log| == |s.log| + 1 && t.log[..|s.log|] == s.log
            && match s.readers[r].box.value
               case ReadError => t.log[|s.log|] == Raised(AdapterUnavailable) && LetGo(s, t, killed)
               case Closed => t.log[|s.log|] == Raised(AdapterUnavailable) && LetGo(s, t, killed)
               case ProtocolError => t.log[|s.log|] == Raised(AdapterProtocolError) && LetGo(s, t, killed)
               case Got(payload) =>
                 && t.log[|s.log|] == (if payload.kind == MalformedError then Raised(Unexpected) else Returned(payload))
                 && if payload.kind == SelfTimeout then LetGo(s, t, killed) else t.cur == s.cur && t.procs == s.procs
  {}

  // The current process is forgotten, and dead if the kill took effect.
  predicate LetGo(s: Sys, t: Sys, killed: bool)
    requires s.cur.Some? && s.cur.value < |s.procs|
  {
    && t.cur == None && |t.procs| == |s.procs|
    && forall p :: 0 <= p < |s.procs| ==>
         t.procs[p] == if p == s.cur.value && killed then s.procs[p].(alive := false) else s.procs[p]
  }

  // Running out of time also raises and kills.
  lemma DeadlineTells(s: Sys, r: nat, killed: bool)
    requires s.phase == Waiting(r) && r < |s.readers| && s.readers[r].box.None?
    requires s.cur.Some? && s.cur.value < |s.procs|
    ensures var t := Next(s, Deadline(killed));
            t.phase == Idle && t.log == s.log + [Raised(Timeout)] && LetGo(s, t, killed)
  {}

  // A call that cannot launch or write to its adapter raises; a failed write kills it.
  lemma StartTells(s: Sys, delivered: bool, killed: bool)
    ensures s.phase.Idle? && !CurrentAlive(s) ==>
              Next(s, SpawnFail) == s.(log := s.log + [Raised(AdapterUnavailable)])
              && Next(s, SpawnThenFail).phase == Idle
              && Next(s, SpawnThenFail).log == s.log + [Raised(AdapterUnavailable)]
    ensures s.phase.Launched? && s.cur.Some? && s.cur.value < |s.procs| ==>
              var t := Next(s, WriteFail(delivered, killed));
              && t.phase == Idle && t.log == s.log + [Raised(AdapterUnavailable)] && t.cur == None
              && (killed ==> !t.procs[s.cur.value].alive)
  {}

  // A call uses the process there is as long as it lives, else a new one.
  lemma BeginReuses(s: Sys)
    requires s.phase.Idle?
    ensures var t := Next(s, Begin);
            && t.phase == Launched && t.log == s.log && CurrentAlive(t)
            && if CurrentAlive(s) then t.procs == s.procs && t.cur == s.cur
               else t.procs == s.procs + [Proc(true, [], [])] && t.cur == Some(|s.procs|)
  {}

  // What the last call of a run says about the process kept for the next one.
  ghost predicate LastCallTells(s: Sys) {
    s.phase.Idle? && s.log != [] ==>
      match s.log[|s.log| - 1]
      case Returned(payload) =>
        && (payload.kind == Ordinary ==> s.cur.Some?) && (payload.kind == SelfTimeout ==> s.cur.None?)
        && payload.kind != MalformedError
      case Raised(code) => code == Timeout || code == AdapterProtocolError ==> s.cur.None?
  }

  ghost predicate Waits(s: Sys) {
    (s.phase.Waiting? ==> s.cur.Some?) && (s.phase.Launched? ==> s.cur.Some?)
  }

  lemma StepTells(s: Sys, step: Step)
    requires LastCallTells(s) && Waits(s)
    ensures LastCallTells(Next(s, step)) && Waits(Next(s, step))
  {}

  lemma {:induction false} RunTells(s: Sys, steps: seq<Step>)
    requires LastCallTells(s) && Waits(s)
    ensures LastCallTells(Exec(s, steps)) && Waits(Exec(s, steps))
    decreases |steps|
  {
    if steps != [] {
      StepTells(s, steps[0]);
      RunTells(Next(s, steps[0]), steps[1..]);
    }
  }

  // Over every run: after an ordinary reply the process is kept for the next call; after
  // a timeout, the adapter's own included, or output past the limits it never is.
  lemma DoubtIsNotReused(steps: seq<Step>)
    ensures LastCallTells(Exec(Init, steps))
  {
    RunTells(Init, steps);
  }

  // Where the output ends, or reading it fails, before the reader has decided, it
  // decides as the loop does.
  lemma EndFollowsLoop(s: Sys, r: nat, lines: seq<Line>)
    requires Reading(s, r) && s.readers[r] == Feed(s.readers[r].proc, lines)
    ensures s.procs[s.readers[r].proc].outbox == [] && !s.procs[s.readers[r].proc].alive ==>
              var box := Next(s, Read(r)).readers[r].box;
              box.Some? && ReadOutcome(lines, false, box.value, |lines|)
    ensures var box := Next(s, ReadFault(r)).readers[r].box;
            box.Some? && ReadOutcome(lines, true, box.value, |lines|)
  {
    ReaderFollowsLoop(s.readers[r].proc, lines, false);
    assert lines[..|lines|] == lines;
  }
}
