/** The connection cache of one transport over the adapter
  (meshsrv/adapter_ipc_client.py).

  is_connected() never asks the adapter; it answers from a record that calls leave
  behind.  The theorems say what that record is after any history of calls. */
module AdapterTransport {
  import opened Prelude

  datatype ConnectionState = Connected | Connecting | Disconnected | Errored

  datatype Error = AdapterUnavailable | Timeout | ProtocolError | Unknown | Other(code: string)

  datatype Info = Info(state: ConnectionState, descriptor: Option<string>, nodeId: Option<string>,
                       connectedSince: Option<real>, lastError: Option<Error>)

  // How one call over the adapter ends: a transport error from claiming the port or
  // from the round trip; any other exception; a reply that is not ok, with its error
  // if it names one; a result, as connection info if it is that.
  datatype Outcome = Refused(error: Error)
                   | Raised
                   | NotOk(reported: Option<Error>)
                   | Result(info: Option<Info>)

  // connect, disconnect and reconnect report connection info; no other call does.
  datatype Operation = Operation(reports: bool, outcome: Outcome)

  datatype Answer = Succeeded(info: Option<Info>) | Failed(error: Error) | Crashed

  const Unreached := Info(Errored, None, None, None, Some(AdapterUnavailable))

  // What a call says about the connection.
  datatype Verdict = Broken(error: Error) | Reported(info: Info) | Silent

  function VerdictOf(op: Operation): Verdict {
    match op.outcome
    case Refused(error) => Broken(error)
    case Raised => Silent
    case NotOk(reported) => Broken(if reported.Some? then reported.value else Unknown)
    case Result(info) => if op.reports && info.Some? then Reported(info.value) else Silent
  }

  function After(cached: Info, op: Operation): Info {
    match VerdictOf(op)
    case Broken(error) => Info(Errored, cached.descriptor, cached.nodeId, None, Some(error))
    case Reported(info) => info
    case Silent => cached
  }

  // The cache after a history, oldest call first.
  function CacheAfter(history: seq<Operation>): Info {
    if history == [] then Unreached else After(CacheAfter(history[..|history| - 1]), history[|history| - 1])
  }

  // Call k is the last of the first n with a verdict.
  ghost predicate LastVerdict(history: seq<Operation>, n: nat, k: nat) {
    k < n <= |history| && !VerdictOf(history[k]).Silent? && forall i :: k < i < n ==> VerdictOf(history[i]).Silent?
  }

  ghost predicate LastReport(history: seq<Operation>, n: nat, k: nat) {
    k < n <= |history| && VerdictOf(history[k]).Reported?
    && forall i :: k < i < n ==> !VerdictOf(history[i]).Reported?
  }

  // Only the last verdict counts, however many calls went through since.
  lemma {:induction false} CacheIsLastVerdict(history: seq<Operation>, k: nat)
    requires LastVerdict(history, |history|, k)
    ensures CacheAfter(history) == After(CacheAfter(history[..k]), history[k])
  {
    var n := |history| - 1;
    if k < n {
      var front := history[..n];
      assert forall i :: k < i < n ==> front[i] == history[i];
      CacheIsLastVerdict(front, k);
      assert front[..k] == history[..k];
    }
  }

  // The radio a broken connection is remembered for is the one last reported.
  lemma {:induction false} RadioIsLastReported(history: seq<Operation>, k: nat)
    requires LastReport(history, |history|, k)
    ensures CacheAfter(history).descriptor == VerdictOf(history[k]).info.descriptor
    ensures CacheAfter(history).nodeId == VerdictOf(history[k]).info.nodeId
  {
    var n := |history| - 1;
    if k < n {
      assert forall i :: k < i < n ==> history[..n][i] == history[i];
      RadioIsLastReported(history[..n], k);
    }
  }

  ghost predicate ReportsConnected(history: seq<Operation>, k: nat) {
    k < |history| && VerdictOf(history[k]).Reported? && VerdictOf(history[k]).info.state == Connected
  }

  // is_connected() is true exactly when some call reported a connection and every
  // call since had nothing to say.  So after one failure no number of calls that
  // work brings it back; only another report does.
  lemma {:induction false} ConnectedIff(history: seq<Operation>)
    ensures CacheAfter(history).state == Connected <==>
              exists k :: ReportsConnected(history, k) && LastVerdict(history, |history|, k)
  {
    if i :| 0 <= i < |history| && !VerdictOf(history[i]).Silent? {
      var k := FindLastVerdict(history, i);
      CacheIsLastVerdict(history, k);
    } else {
      NoVerdictNoChange(history);
    }
  }

  lemma {:induction false} FindLastVerdict(history: seq<Operation>, i: nat) returns (k: nat)
    requires i < |history| && !VerdictOf(history[i]).Silent?
    ensures LastVerdict(history, |history|, k)
    decreases |history| - i
  {
    if j :| i < j < |history| && !VerdictOf(history[j]).Silent? {
      k := FindLastVerdict(history, j);
    } else {
      k := i;
    }
  }

  lemma {:induction false} NoVerdictNoChange(history: seq<Operation>)
    requires forall k :: 0 <= k < |history| ==> VerdictOf(history[k]).Silent?
    ensures CacheAfter(history) == Unreached
  {
    if history != [] { NoVerdictNoChange(history[..|history| - 1]); }
  }

  lemma CacheSnoc(history: seq<Operation>, op: Operation)
    ensures CacheAfter(history + [op]) == After(CacheAfter(history), op)
  {
    assert (history + [op])[..|history|] == history;
  }

  class AdapterIPCTransport {
    var cached: Info
    ghost var history: seq<Operation>

    // The record is what the calls so far left behind.
    ghost predicate Valid()
      reads this
    {
      cached == CacheAfter(history)
    }

    constructor ()
      ensures Valid() && cached == Unreached && history == []
    {
      cached := Unreached;
      history := [];
    }

    // _call: the result, or the error it raises after recording it.
    method Call(outcome: Outcome) returns (answer: Answer)
      modifies this`cached
      ensures cached == After(old(cached), Operation(false, outcome))
      ensures answer == match outcome
                        case Refused(error) => Failed(error)
                        case Raised => Crashed
                        case NotOk(reported) => Failed(if reported.Some? then reported.value else Unknown)
                        case Result(info) => Succeeded(info)
    {
      match outcome
      case Refused(error) =>
        cached := Info(Errored, cached.descriptor, cached.nodeId, None, Some(error));
        return Failed(error);
      case Raised =>
        return Crashed;
      case NotOk(reported) =>
        var error := if reported.Some? then reported.value else Unknown;
        cached := Info(Errored, cached.descriptor, cached.nodeId, None, Some(error));
        return Failed(error);
      case Result(info) =>
        return Succeeded(info);
    }

    // A call that reports nothing about the connection.
    method Plain(outcome: Outcome) returns (answer: Answer)
      requires Valid()
      modifies this
      ensures Valid() && history == old(history) + [Operation(false, outcome)]
      ensures cached == After(old(cached), Operation(false, outcome))
    {
      answer := Call(outcome);
      CacheSnoc(history, Operation(false, outcome));
      history := history + [Operation(false, outcome)];
    }

    method Record(outcome: Outcome) returns (answer: Answer)
      modifies this`cached
      ensures cached == After(old(cached), Operation(true, outcome))
    {
      answer := Call(outcome);
      if answer.Succeeded? {
        if answer.info.None? {
          return Crashed;
        }
        cached := answer.info.value;
      }
    }

    // connect, disconnect and reconnect; a result that is no connection info raises.
    method Report(outcome: Outcome) returns (answer: Answer)
      requires Valid()
      modifies this
      ensures Valid() && history == old(history) + [Operation(true, outcome)]
      ensures cached == After(old(cached), Operation(true, outcome))
    {
      answer := Record(outcome);
      CacheSnoc(history, Operation(true, outcome));
      history := history + [Operation(true, outcome)];
    }

    method IsConnected() returns (connected: bool)
      requires Valid()
      ensures connected <==> exists k :: ReportsConnected(history, k) && LastVerdict(history, |history|, k)
    {
      ConnectedIff(history);
      connected := cached.state == Connected;
    }
  }

  // A failure is on record with its error until the next verdict: not connected, no
  // connection time, the radio as it was.
  lemma {:induction false} FailureIsRecorded(history: seq<Operation>, k: nat)
    requires LastVerdict(history, |history|, k) && VerdictOf(history[k]).Broken?
    ensures var info := CacheAfter(history);
            && info.state == Errored && info.connectedSince == None
            && info.lastError == Some(VerdictOf(history[k]).error)
            && info.descriptor == CacheAfter(history[..k]).descriptor && info.nodeId == CacheAfter(history[..k]).nodeId
  {
    CacheIsLastVerdict(history, k);
  }

  // And a report is on record as it was given.
  lemma {:induction false} ReportIsRecorded(history: seq<Operation>, k: nat)
    requires LastVerdict(history, |history|, k) && history[k].reports && history[k].outcome.Result?
    ensures history[k].outcome.info == Some(CacheAfter(history))
  {
    CacheIsLastVerdict(history, k);
  }

  // A call that works but reports nothing, and an exception that is no transport
  // error, leave the record alone.
  lemma SilentCallsKeepRecord(history: seq<Operation>, op: Operation)
    requires op.outcome.Raised? || (op.outcome.Result? && (!op.reports || op.outcome.info.None?))
    ensures CacheAfter(history + [op]) == CacheAfter(history)
  {
    CacheSnoc(history, op);
  }
}
