/** Every interleaving of the outgoing-message protocol.

  A job is outstanding from the moment its message is stored as pending until the
  send worker has handled it: held by the request thread, in the queue, or in the
  worker's batch.  The theorems say exactly which stored messages are pending. */
module SendProtocol {
  import opened Prelude
  import opened Outgoing

  datatype Job = Job(id: nat, chat: Chat, dm: bool)

  datatype SendResult = Accepted(packet: Option<int>) | Rejected

  datatype Worker =
    | Collecting(batch: seq<Job>)
    | Sending(batch: seq<Job>)
    | Resolving(batch: seq<Job>, results: seq<SendResult>)
    | Failing(batch: seq<Job>)

  // inHand: jobs of request threads between storing the message and queue.put().
  // saved: the history file.  orphans is bookkeeping of this model, not of the
  // code: ids whose job was used up without touching the stored message.
  datatype Sys = Sys(historyLimit: nat, localNode: string,
                     messages: seq<Message>, saved: seq<Message>, nextId: nat,
                     inHand: multiset<Job>, queue: seq<Job>, worker: Worker, orphans: set<nat>)

  function Init(historyLimit: nat, localNode: string): Sys {
    Sys(historyLimit, localNode, [], [], 0, multiset{}, [], Collecting([]), {})
  }

  // Save is a save_messages() that reaches the disk; leaving it out of a run is a
  // failed write.  Receive is every other caller of add_message().
  datatype Step =
    | Send(chat: Chat, text: string)
    | Receive(chat: Chat, mine: bool, text: string, packet: Option<int>)
    | Enqueue(job: Job)
    | Take
    | Commit(radioAvailable: bool)
    | Reply(results: seq<SendResult>)
    | SendRaises
    | ResolveOne(now: real)
    | FailOne
    | EndBatch
    | Delete(id: nat, chat: Chat)
    | Retry(id: nat, chat: Chat)
    | RoutingAck(requestId: int, isAck: bool)
    | AckTick(now: real)
    | Save
    | Restart

  function JobIds(jobs: seq<Job>): set<nat> {
    if jobs == [] then {} else {jobs[0].id} + JobIds(jobs[1..])
  }

  function Stored(s: Sys, m: Message): seq<Message> {
    Truncated(s.messages + [m], s.historyLimit)
  }

  // Orphaned because update_message_status() matches the chat as well, and a job
  // addressed to the local node carries a chat nothing is ever filed under.
  function Unmatched(s: Sys, job: Job): set<nat> {
    if job.chat == Direct(s.localNode) then {job.id} else {}
  }

  function Next(s: Sys, step: Step): Sys {
    match step
    case Send(chat, text) =>
      var filed := FiledUnder(chat, s.localNode);
      s.(messages := Stored(s, Message(s.nextId, filed, true, text, Pending, None, false, None)),
         inHand := s.inHand + multiset{Job(s.nextId, chat, chat.Direct?)},
         nextId := s.nextId + 1)
    case Receive(chat, mine, text, packet) =>
      var filed := FiledUnder(chat, s.localNode);
      s.(messages := Stored(s, Message(s.nextId, filed, mine, text, Status.Sent, packet, false, None)),
         nextId := s.nextId + 1)
    case Enqueue(job) =>
      if job in s.inHand then s.(inHand := s.inHand - multiset{job}, queue := s.queue + [job]) else s
    case Take =>
      if s.worker.Collecting? && s.queue != []
      then s.(queue := s.queue[1..], worker := Collecting(s.worker.batch + [s.queue[0]]))
      else s
    case Commit(radioAvailable) =>
      if s.worker.Collecting? && s.worker.batch != []
      then s.(worker := if radioAvailable then Sending(s.worker.batch) else Failing(s.worker.batch))
      else s
    case Reply(results) =>
      if s.worker.Sending? then s.(worker := Resolving(s.worker.batch, results)) else s
    case SendRaises =>
      if s.worker.Sending? then s.(worker := Failing(s.worker.batch)) else s
    case ResolveOne(now) =>
      if s.worker.Resolving? && s.worker.batch != [] && s.worker.results != [] then
        var job := s.worker.batch[0];
        var messages := match s.worker.results[0]
          case Accepted(packet) =>
            StatusUpdated(s.messages, job.id, job.chat, Status.Sent, packet, job.dm, now)
          case Rejected =>
            StatusUpdated(s.messages, job.id, job.chat, Failed, None, false, now);
        s.(messages := messages, orphans := s.orphans + Unmatched(s, job),
           worker := Resolving(s.worker.batch[1..], s.worker.results[1..]))
      else s
    case FailOne =>
      if s.worker.Failing? && s.worker.batch != [] then
        var job := s.worker.batch[0];
        s.(messages := StatusUpdated(s.messages, job.id, job.chat, Failed, None, false, 0.0),
           orphans := s.orphans + Unmatched(s, job),
           worker := Failing(s.worker.batch[1..]))
      else s
    case EndBatch =>
      if s.worker.Resolving? && (s.worker.batch == [] || s.worker.results == [])
      then s.(worker := Collecting([]), orphans := s.orphans + JobIds(s.worker.batch))
      else if s.worker.Failing? && s.worker.batch == [] then s.(worker := Collecting([]))
      else s
    case Delete(id, chat) => s.(messages := Without(s.messages, id, chat))
    case Retry(id, chat) =>
      if Retryable(s.messages, id, chat)
      then s.(messages := Requeued(s.messages, id, chat),
              inHand := s.inHand + multiset{Job(id, chat, chat.Direct?)})
      else s
    case RoutingAck(requestId, isAck) => s.(messages := Acknowledged(s.messages, requestId, isAck))
    case AckTick(now) =>
      s.(messages := seq(|s.messages|, i requires 0 <= i < |s.messages| => TimedOut(s.messages[i], now)))
    case Save => s.(saved := s.messages)
    case Restart =>
      s.(messages := seq(|s.saved|, i requires 0 <= i < |s.saved| => Reconciled(s.saved[i])),
         inHand := multiset{}, queue := [], worker := Collecting([]), orphans := {})
  }

  function Exec(s: Sys, steps: seq<Step>): Sys
    decreases |steps|
  {
    if steps == [] then s else Exec(Next(s, steps[0]), steps[1..])
  }

  // ------------------------------------------------------------------ invariant

  function Outstanding(s: Sys): multiset<Job> {
    s.inHand + multiset(s.queue) + multiset(s.worker.batch)
  }

  ghost predicate HasJob(jobs: multiset<Job>, id: nat) {
    exists job :: job in jobs && job.id == id
  }

  // An ACK deadline is kept exactly while a sent message waits for its ACK, and a
  // message that was never sent has never asked for one.
  predicate AckConsistent(m: Message) {
    && (m.ackDeadline.Some? <==> m.status == Status.Sent && m.ackRequested)
    && (m.status == Pending || m.status == Failed ==> !m.ackRequested)
  }

  ghost predicate Distinct(ms: seq<Message>) {
    forall i, j :: 0 <= i < j < |ms| ==> ms[i].id != ms[j].id
  }

  ghost predicate Filed(m: Message, nextId: nat, localNode: string) {
    m.id < nextId && m.chat != Direct(localNode) && AckConsistent(m)
  }

  ghost predicate AllFiled(ms: seq<Message>, nextId: nat, localNode: string) {
    Distinct(ms) && forall m :: m in ms ==> Filed(m, nextId, localNode)
  }

  // The exact account of "pending", and where the jobs of a message are addressed.
  ghost predicate Linked(m: Message, jobs: multiset<Job>, orphans: set<nat>, localNode: string) {
    && (m.status == Pending <==> HasJob(jobs, m.id) || m.id in orphans)
    && forall job :: job in jobs && job.id == m.id ==> job.chat == m.chat || job.chat == Direct(localNode)
  }

  ghost predicate AllLinked(ms: seq<Message>, jobs: multiset<Job>, orphans: set<nat>, localNode: string) {
    forall m :: m in ms ==> Linked(m, jobs, orphans, localNode)
  }

  ghost predicate JobsUnique(jobs: multiset<Job>, nextId: nat) {
    && (forall job :: job in jobs ==> jobs[job] == 1 && job.id < nextId)
    && forall job, other :: job in jobs && other in jobs && job.id == other.id ==> job == other
  }

  ghost predicate OrphansApart(jobs: multiset<Job>, orphans: set<nat>, nextId: nat) {
    forall id :: id in orphans ==> id < nextId && !HasJob(jobs, id)
  }

  ghost predicate Inv(s: Sys) {
    && AllFiled(s.messages, s.nextId, s.localNode)
    && AllFiled(s.saved, s.nextId, s.localNode)
    && JobsUnique(Outstanding(s), s.nextId)
    && OrphansApart(Outstanding(s), s.orphans, s.nextId)
    && AllLinked(s.messages, Outstanding(s), s.orphans, s.localNode)
  }

  // ------------------------------------------------------- jobs come and go

  lemma AddJob(jobs: multiset<Job>, job: Job, orphans: set<nat>, nextId: nat, bound: nat)
    requires JobsUnique(jobs, nextId) && OrphansApart(jobs, orphans, nextId)
    requires !HasJob(jobs, job.id) && job.id !in orphans && job.id < bound && nextId <= bound
    ensures JobsUnique(jobs + multiset{job}, bound)
    ensures OrphansApart(jobs + multiset{job}, orphans, bound)
    ensures HasJob(jobs + multiset{job}, job.id)
  {
    var all := jobs + multiset{job};
    assert job !in jobs && job in all;
    assert forall j :: j in all <==> j in jobs || j == job;
    assert forall j :: j in jobs ==> all[j] == jobs[j];
  }

  lemma AddJobElsewhere(m: Message, jobs: multiset<Job>, job: Job, orphans: set<nat>, localNode: string)
    requires Linked(m, jobs, orphans, localNode) && job.id != m.id
    ensures Linked(m, jobs + multiset{job}, orphans, localNode)
  {
    assert forall j :: j in jobs + multiset{job} <==> j in jobs || j == job;
    assert HasJob(jobs + multiset{job}, m.id) <==> HasJob(jobs, m.id);
  }

  lemma DropJob(jobs: multiset<Job>, job: Job, orphans: set<nat>, nextId: nat)
    requires JobsUnique(jobs, nextId) && OrphansApart(jobs, orphans, nextId) && job in jobs
    ensures JobsUnique(jobs - multiset{job}, nextId)
    ensures OrphansApart(jobs - multiset{job}, orphans + {job.id}, nextId)
    ensures OrphansApart(jobs - multiset{job}, orphans, nextId)
    ensures !HasJob(jobs - multiset{job}, job.id)
  {
    var rest := jobs - multiset{job};
    assert forall j :: j in rest <==> j in jobs && j != job;
    assert forall j :: j in rest ==> rest[j] == jobs[j];
  }

  lemma DropJobElsewhere(m: Message, jobs: multiset<Job>, job: Job, orphans: set<nat>, localNode: string)
    requires Linked(m, jobs, orphans, localNode) && job.id != m.id
    ensures Linked(m, jobs - multiset{job}, orphans, localNode)
    ensures Linked(m, jobs - multiset{job}, orphans + {job.id}, localNode)
  {
    assert forall j :: j in jobs && j != job ==> j in jobs - multiset{job};
    assert forall j :: j in jobs - multiset{job} ==> j in jobs;
    assert HasJob(jobs - multiset{job}, m.id) <==> HasJob(jobs, m.id);
  }

  // The job of a pending message becomes an orphan: still exactly accounted for.
  lemma JobToOrphan(m: Message, jobs: multiset<Job>, job: Job, orphans: set<nat>, localNode: string)
    requires Linked(m, jobs, orphans, localNode) && job in jobs
    ensures Linked(m, jobs - multiset{job}, orphans + {job.id}, localNode)
  {
    if job.id != m.id {
      DropJobElsewhere(m, jobs, job, orphans, localNode);
    } else {
      assert HasJob(jobs, m.id);
      assert forall j :: j in jobs - multiset{job} ==> j in jobs;
    }
  }

  // --------------------------------------------------------- lists of messages

  lemma TruncatedIsPart(ms: seq<Message>, limit: nat)
    ensures forall m :: m in Truncated(ms, limit) ==> m in ms
    ensures Distinct(ms) ==> Distinct(Truncated(ms, limit))
  {}

  lemma WithoutIsPart(ms: seq<Message>, id: nat, chat: Chat)
    ensures forall m :: m in Without(ms, id, chat) ==> m in ms
    ensures Distinct(ms) ==> Distinct(Without(ms, id, chat))
  {}

  lemma AppendFiled(ms: seq<Message>, m: Message, nextId: nat, limit: nat, localNode: string)
    requires AllFiled(ms, nextId, localNode) && m.id == nextId && Filed(m, nextId + 1, localNode)
    ensures AllFiled(Truncated(ms + [m], limit), nextId + 1, localNode)
  {
    forall i, j | 0 <= i < j < |ms + [m]| ensures (ms + [m])[i].id != (ms + [m])[j].id {
      assert (ms + [m])[i] in ms;
    }
    TruncatedIsPart(ms + [m], limit);
  }

  lemma WidenFiled(ms: seq<Message>, nextId: nat, localNode: string)
    requires AllFiled(ms, nextId, localNode)
    ensures AllFiled(ms, nextId + 1, localNode)
  {}

  // One stored message changes; its id and chat stay.
  lemma UpdateFiled(ms: seq<Message>, i: nat, m: Message, nextId: nat, localNode: string)
    requires AllFiled(ms, nextId, localNode) && i < |ms|
    requires m.id == ms[i].id && Filed(m, nextId, localNode)
    ensures AllFiled(ms[i := m], nextId, localNode)
    ensures forall x :: x in ms[i := m] ==> x == m || (x in ms && x.id != m.id)
  {
    forall x | x in ms[i := m] ensures x == m || (x in ms && x.id != m.id) {
      var k :| 0 <= k < |ms| && ms[i := m][k] == x;
      if k != i {
        assert ms[k].id != ms[i].id;
      }
    }
  }

  // ------------------------------------------------------------- step by step

  lemma MovesKeepJobs(s: Sys, step: Step)
    requires step.Enqueue? || step.Take? || step.Commit? || step.Reply? || step.SendRaises?
    ensures Outstanding(Next(s, step)) == Outstanding(s)
  {
    if step.Take? && s.queue != [] {
      assert s.queue == [s.queue[0]] + s.queue[1..];
    }
  }

  lemma SendKeepsInv(s: Sys, chat: Chat, text: string)
    requires Inv(s)
    ensures Inv(Next(s, Send(chat, text)))
  {
    var s' := Next(s, Send(chat, text));
    var m := Message(s.nextId, FiledUnder(chat, s.localNode), true, text, Pending, None, false, None);
    var job := Job(s.nextId, chat, chat.Direct?);
    var jobs := Outstanding(s) + multiset{job};
    assert Outstanding(s') == jobs;
    AddJob(Outstanding(s), job, s.orphans, s.nextId, s.nextId + 1);
    AppendFiled(s.messages, m, s.nextId, s.historyLimit, s.localNode);
    WidenFiled(s.saved, s.nextId, s.localNode);
    TruncatedIsPart(s.messages + [m], s.historyLimit);
    forall x | x in s'.messages ensures Linked(x, jobs, s.orphans, s.localNode) {
      if x in s.messages {
        AddJobElsewhere(x, Outstanding(s), job, s.orphans, s.localNode);
      } else {
        assert x == m;
        assert forall j :: j in jobs && j.id == m.id ==> j == job;
      }
    }
  }

  lemma ReceiveKeepsInv(s: Sys, chat: Chat, mine: bool, text: string, packet: Option<int>)
    requires Inv(s)
    ensures Inv(Next(s, Receive(chat, mine, text, packet)))
  {
    var s' := Next(s, Receive(chat, mine, text, packet));
    var m := Message(s.nextId, FiledUnder(chat, s.localNode), mine, text, Status.Sent, packet, false, None);
    assert Outstanding(s') == Outstanding(s);
    assert JobsUnique(Outstanding(s), s.nextId + 1);
    AppendFiled(s.messages, m, s.nextId, s.historyLimit, s.localNode);
    WidenFiled(s.saved, s.nextId, s.localNode);
    TruncatedIsPart(s.messages + [m], s.historyLimit);
    forall x | x in s'.messages ensures Linked(x, Outstanding(s), s.orphans, s.localNode) {
      if x !in s.messages {
        assert x == m && !HasJob(Outstanding(s), m.id);
      }
    }
  }

  // The worker uses up `job`; its message, if still stored, leaves "pending"
  // unless the job is addressed to the local node.
  lemma ConsumeJob(s: Sys, job: Job, status: Status, packet: Option<int>, ack: bool, now: real)
    requires Inv(s) && job in Outstanding(s)
    requires (status == Failed && !ack) || status == Status.Sent
    ensures var ms := StatusUpdated(s.messages, job.id, job.chat, status, packet, ack, now);
            var jobs := Outstanding(s) - multiset{job};
            var orphans := s.orphans + Unmatched(s, job);
            && AllFiled(ms, s.nextId, s.localNode) && JobsUnique(jobs, s.nextId)
            && OrphansApart(jobs, orphans, s.nextId) && AllLinked(ms, jobs, orphans, s.localNode)
  {
    var jobs := Outstanding(s) - multiset{job};
    DropJob(Outstanding(s), job, s.orphans, s.nextId);
    match LastIndex(s.messages, ById(job.id, job.chat)) {
      case None =>
        forall x | x in s.messages ensures Linked(x, jobs, s.orphans + Unmatched(s, job), s.localNode) {
          if job.chat == Direct(s.localNode) {
            JobToOrphan(x, Outstanding(s), job, s.orphans, s.localNode);
          } else {
            assert x.id != job.id;
            DropJobElsewhere(x, Outstanding(s), job, s.orphans, s.localNode);
          }
        }
      case Some(i) =>
        var old_m := s.messages[i];
        assert old_m in s.messages && HasJob(Outstanding(s), old_m.id);
        var m := Resolved(old_m, status, packet, ack, now);
        UpdateFiled(s.messages, i, m, s.nextId, s.localNode);
        assert Unmatched(s, job) == {};
        forall x | x in s.messages[i := m] ensures Linked(x, jobs, s.orphans, s.localNode) {
          if x != m {
            DropJobElsewhere(x, Outstanding(s), job, s.orphans, s.localNode);
          } else {
            assert forall j :: j in jobs ==> j.id != m.id;
          }
        }
    }
  }

  lemma HeadKeepsInv(s: Sys, step: Step)
    requires Inv(s) && (step.ResolveOne? || step.FailOne?)
    ensures Inv(Next(s, step))
  {
    if s.worker.batch != [] {
      var job := s.worker.batch[0];
      assert s.worker.batch == [job] + s.worker.batch[1..];
      if step.FailOne? && s.worker.Failing? {
        assert Outstanding(Next(s, step)) == Outstanding(s) - multiset{job};
        ConsumeJob(s, job, Failed, None, false, 0.0);
      } else if step.ResolveOne? && s.worker.Resolving? && s.worker.results != [] {
        assert Outstanding(Next(s, step)) == Outstanding(s) - multiset{job};
        match s.worker.results[0] {
          case Accepted(packet) => ConsumeJob(s, job, Status.Sent, packet, job.dm, step.now);
          case Rejected => ConsumeJob(s, job, Failed, None, false, step.now);
        }
      }
    }
  }

  // Jobs dropped at the end of a batch become orphans one by one.
  lemma {:induction false} DropJobs(ms: seq<Message>, jobs: multiset<Job>, left: seq<Job>, orphans: set<nat>,
                                    nextId: nat, localNode: string)
    requires multiset(left) <= jobs && JobsUnique(jobs, nextId) && OrphansApart(jobs, orphans, nextId)
    requires AllLinked(ms, jobs, orphans, localNode)
    ensures JobsUnique(jobs - multiset(left), nextId)
    ensures OrphansApart(jobs - multiset(left), orphans + JobIds(left), nextId)
    ensures AllLinked(ms, jobs - multiset(left), orphans + JobIds(left), localNode)
    decreases |left|
  {
    if left == [] {
      assert jobs - multiset(left) == jobs && orphans + JobIds(left) == orphans;
    } else {
      var job := left[0];
      assert left == [job] + left[1..];
      assert job in multiset(left) && job in jobs;
      var rest := jobs - multiset{job};
      assert multiset(left) == multiset{job} + multiset(left[1..]);
      assert jobs - multiset(left) == rest - multiset(left[1..]) && multiset(left[1..]) <= rest;
      assert orphans + JobIds(left) == orphans + {job.id} + JobIds(left[1..]);
      DropJob(jobs, job, orphans, nextId);
      forall m | m in ms ensures Linked(m, rest, orphans + {job.id}, localNode) {
        JobToOrphan(m, jobs, job, orphans, localNode);
      }
      DropJobs(ms, rest, left[1..], orphans + {job.id}, nextId, localNode);
    }
  }

  lemma EndBatchKeepsInv(s: Sys)
    requires Inv(s)
    ensures Inv(Next(s, EndBatch))
  {
    var s' := Next(s, EndBatch);
    if s' != s {
      var left := s.worker.batch;
      DroppedJobs(s);
      DropJobs(s.messages, Outstanding(s), left, s.orphans, s.nextId, s.localNode);
      EndBatchState(s);
    }
  }

  lemma EndBatchState(s: Sys)
    requires Next(s, EndBatch) != s
    ensures var s' := Next(s, EndBatch);
            s'.orphans == s.orphans + JobIds(s.worker.batch) && s'.messages == s.messages && s'.saved == s.saved
            && s'.nextId == s.nextId && s'.localNode == s.localNode
  {
    assert s.worker.batch == [] ==> s.orphans + JobIds(s.worker.batch) == s.orphans;
  }

  lemma DroppedJobs(s: Sys)
    requires Next(s, EndBatch) != s
    ensures Outstanding(Next(s, EndBatch)) == Outstanding(s) - multiset(s.worker.batch)
    ensures multiset(s.worker.batch) <= Outstanding(s)
  {}

  lemma RetryKeepsInv(s: Sys, id: nat, chat: Chat)
    requires Inv(s)
    ensures Inv(Next(s, Retry(id, chat)))
  {
    if Retryable(s.messages, id, chat) {
      var s' := Next(s, Retry(id, chat));
      var i := LastIndex(s.messages, ById(id, chat)).value;
      var m := s.messages[i].(status := Pending);
      var job := Job(id, chat, chat.Direct?);
      var jobs := Outstanding(s) + multiset{job};
      assert s.messages[i] in s.messages;
      AddJob(Outstanding(s), job, s.orphans, s.nextId, s.nextId);
      assert Outstanding(s') == jobs;
      UpdateFiled(s.messages, i, m, s.nextId, s.localNode);
      forall x | x in s'.messages ensures Linked(x, jobs, s.orphans, s.localNode) {
        if x != m {
          AddJobElsewhere(x, Outstanding(s), job, s.orphans, s.localNode);
        } else {
          assert forall j :: j in jobs && j.id == id ==> j == job;
        }
      }
    }
  }

  lemma AckKeepsInv(s: Sys, requestId: int, isAck: bool)
    requires Inv(s)
    ensures Inv(Next(s, RoutingAck(requestId, isAck)))
  {
    var s' := Next(s, RoutingAck(requestId, isAck));
    assert Outstanding(s') == Outstanding(s);
    if s'.messages != s.messages {
      var i := LastIndex(s.messages, ByPacket(requestId)).value;
      assert s.messages[i] in s.messages;
      UpdateFiled(s.messages, i, s'.messages[i], s.nextId, s.localNode);
    }
  }

  lemma AckTickKeepsInv(s: Sys, now: real)
    requires Inv(s)
    ensures Inv(Next(s, AckTick(now)))
  {
    var s' := Next(s, AckTick(now));
    assert Outstanding(s') == Outstanding(s);
    forall m | m in s'.messages
      ensures Filed(m, s.nextId, s.localNode) && Linked(m, Outstanding(s), s.orphans, s.localNode)
    {
      var i :| 0 <= i < |s.messages| && s'.messages[i] == m;
      assert m == TimedOut(s.messages[i], now) && s.messages[i] in s.messages;
    }
  }

  lemma RestartKeepsInv(s: Sys)
    requires Inv(s)
    ensures Inv(Next(s, Restart))
  {
    var s' := Next(s, Restart);
    assert Outstanding(s') == multiset{};
    forall m | m in s'.messages
      ensures Filed(m, s.nextId, s.localNode) && Linked(m, multiset{}, {}, s.localNode)
    {
      var i :| 0 <= i < |s.saved| && s'.messages[i] == m;
      assert m == Reconciled(s.saved[i]) && s.saved[i] in s.saved;
    }
  }

  lemma KeepsInv(s: Sys, step: Step)
    requires Inv(s)
    ensures Inv(Next(s, step))
  {
    match step
    case Send(chat, text) => SendKeepsInv(s, chat, text);
    case Receive(chat, mine, text, packet) => ReceiveKeepsInv(s, chat, mine, text, packet);
    case ResolveOne(_) => HeadKeepsInv(s, step);
    case FailOne => HeadKeepsInv(s, step);
    case EndBatch => EndBatchKeepsInv(s);
    case Retry(id, chat) => RetryKeepsInv(s, id, chat);
    case RoutingAck(requestId, isAck) => AckKeepsInv(s, requestId, isAck);
    case AckTick(now) => AckTickKeepsInv(s, now);
    case Restart => RestartKeepsInv(s);
    case Delete(id, chat) =>
      WithoutIsPart(s.messages, id, chat);
      assert Outstanding(Next(s, step)) == Outstanding(s);
    case Save => assert Outstanding(Next(s, step)) == Outstanding(s);
    case _ => MovesKeepJobs(s, step);
  }

  lemma {:induction false} RunKeepsInv(s: Sys, steps: seq<Step>)
    requires Inv(s)
    ensures Inv(Exec(s, steps))
    decreases |steps|
  {
    if steps != [] {
      KeepsInv(s, steps[0]);
      RunKeepsInv(Next(s, steps[0]), steps[1..]);
    }
  }

  // ------------------------------------------------------------ pending, exactly

  // Over any run whatever: no two outstanding jobs share a message id, a stored
  // message is pending exactly when one outstanding job carries its id or its job
  // was used up without reaching it, and a restart leaves nothing pending.
  lemma PendingExactly(historyLimit: nat, localNode: string, steps: seq<Step>)
    ensures var s := Exec(Init(historyLimit, localNode), steps);
            var jobs := Outstanding(s);
            && (forall job, other :: job in jobs && other in jobs && job.id == other.id ==>
                  job == other && jobs[job] == 1)
            && (forall m :: m in s.messages ==> (m.status == Pending <==> HasJob(jobs, m.id) || m.id in s.orphans))
            && (forall id :: id in s.orphans ==> !HasJob(jobs, id))
            && (forall m :: m in s.messages ==>
                  (m.ackDeadline.Some? <==> m.status == Status.Sent && m.ackRequested))
            && forall m :: m in Next(s, Restart).messages ==> m.status != Pending
  {
    RunKeepsInv(Init(historyLimit, localNode), steps);
    InvMeansPendingExactly(Exec(Init(historyLimit, localNode), steps));
  }

  lemma InvMeansPendingExactly(s: Sys)
    requires Inv(s)
    ensures forall job, other :: job in Outstanding(s) && other in Outstanding(s) && job.id == other.id ==>
              job == other && Outstanding(s)[job] == 1
    ensures forall m :: m in s.messages ==> (m.status == Pending <==> HasJob(Outstanding(s), m.id) || m.id in s.orphans)
    ensures forall id :: id in s.orphans ==> !HasJob(Outstanding(s), id)
    ensures forall m :: m in s.messages ==> (m.ackDeadline.Some? <==> m.status == Status.Sent && m.ackRequested)
    ensures forall m :: m in Next(s, Restart).messages ==> m.status != Pending
  {}

  // The two branches that orphan a message: a send addressed to the local node,
  // and a reply with fewer results than the batch has jobs.
  predicate Healthy(s: Sys, step: Step) {
    && (step.Send? ==> step.chat != Direct(s.localNode))
    && (step.Reply? && s.worker.Sending? ==> |step.results| >= |s.worker.batch|)
  }

  predicate HealthyRun(s: Sys, steps: seq<Step>)
    decreases |steps|
  {
    steps == [] || (Healthy(s, steps[0]) && HealthyRun(Next(s, steps[0]), steps[1..]))
  }

  ghost predicate NoOrphans(s: Sys) {
    && s.orphans == {}
    && (forall job :: job in Outstanding(s) ==> job.chat != Direct(s.localNode))
    && (s.worker.Resolving? ==> |s.worker.batch| <= |s.worker.results|)
  }

  lemma BatchHead(batch: seq<Job>)
    ensures batch != [] ==> multiset(batch) == multiset{batch[0]} + multiset(batch[1..])
  {
    if batch != [] { assert batch == [batch[0]] + batch[1..]; }
  }

  // Only sending and retrying create jobs.
  lemma NoNewJobs(s: Sys, step: Step)
    requires !step.Send? && !step.Retry?
    ensures forall job :: job in Outstanding(Next(s, step)) ==> job in Outstanding(s)
  {
    match step
    case ResolveOne(_) => BatchHead(s.worker.batch);
    case FailOne => BatchHead(s.worker.batch);
    case Enqueue(_) => MovesKeepJobs(s, step);
    case Take => MovesKeepJobs(s, step);
    case _ =>
  }

  lemma HealthyStep(s: Sys, step: Step)
    requires Inv(s) && NoOrphans(s) && Healthy(s, step)
    ensures NoOrphans(Next(s, step))
  {
    if step.Retry? {
      HealthyRetry(s, step.id, step.chat);
    } else if step.Send? {
      HealthySend(s, step.chat, step.text);
    } else {
      NoNewJobs(s, step);
      HealthyBatch(s, step);
    }
  }

  lemma HealthyRetry(s: Sys, id: nat, chat: Chat)
    requires Inv(s) && NoOrphans(s)
    ensures NoOrphans(Next(s, Retry(id, chat)))
  {
    if Retryable(s.messages, id, chat) {
      var i := LastIndex(s.messages, ById(id, chat)).value;
      assert s.messages[i] in s.messages && s.messages[i].chat == chat;
      assert Outstanding(Next(s, Retry(id, chat))) == Outstanding(s) + multiset{Job(id, chat, chat.Direct?)};
    }
  }

  lemma HealthySend(s: Sys, chat: Chat, text: string)
    requires NoOrphans(s) && chat != Direct(s.localNode)
    ensures NoOrphans(Next(s, Send(chat, text)))
  {
    assert Outstanding(Next(s, Send(chat, text))) == Outstanding(s) + multiset{Job(s.nextId, chat, chat.Direct?)};
  }

  lemma HealthyBatch(s: Sys, step: Step)
    requires NoOrphans(s) && Healthy(s, step)
    ensures Next(s, step).orphans == {}
    ensures Next(s, step).worker.Resolving? ==> |Next(s, step).worker.batch| <= |Next(s, step).worker.results|
  {
    if s.worker.batch != [] {
      assert s.worker.batch[0] in multiset(s.worker.batch);
      assert s.worker.batch[0] in Outstanding(s);
    }
  }

  lemma {:induction false} HealthyRunNoOrphans(s: Sys, steps: seq<Step>)
    requires Inv(s) && NoOrphans(s) && HealthyRun(s, steps)
    ensures Inv(Exec(s, steps)) && NoOrphans(Exec(s, steps))
    decreases |steps|
  {
    if steps != [] {
      KeepsInv(s, steps[0]);
      HealthyStep(s, steps[0]);
      HealthyRunNoOrphans(Next(s, steps[0]), steps[1..]);
    }
  }

  // Away from those two branches, pending means exactly one outstanding job.
  lemma PendingIffOutstanding(historyLimit: nat, localNode: string, steps: seq<Step>)
    requires HealthyRun(Init(historyLimit, localNode), steps)
    ensures var s := Exec(Init(historyLimit, localNode), steps);
            forall m :: m in s.messages ==> (m.status == Pending <==> HasJob(Outstanding(s), m.id))
  {
    HealthyRunNoOrphans(Init(historyLimit, localNode), steps);
  }

  lemma HandledJobIsGone(s: Sys, step: Step)
    requires Inv(s) && s.worker.batch != []
    requires (step.ResolveOne? && s.worker.Resolving? && s.worker.results != []) || (step.FailOne? && s.worker.Failing?)
    ensures HasJob(Outstanding(s), s.worker.batch[0].id) && !HasJob(Outstanding(Next(s, step)), s.worker.batch[0].id)
    ensures s.worker.batch[0] in Outstanding(s)
  {
    var job := s.worker.batch[0];
    assert s.worker.batch == [job] + s.worker.batch[1..];
    assert job in Outstanding(s);
    assert Outstanding(Next(s, step)) == Outstanding(s) - multiset{job};
    DropJob(Outstanding(s), job, s.orphans, s.nextId);
  }

  // When the worker handles the job of a stored message, that message is left
  // pending if and only if the job is addressed to the local node.
  lemma StuckIffSelfAddressed(s: Sys, step: Step, i: nat)
    requires Inv(s) && i < |s.messages| && s.worker.batch != [] && s.messages[i].id == s.worker.batch[0].id
    requires (step.ResolveOne? && s.worker.Resolving? && s.worker.results != []) || (step.FailOne? && s.worker.Failing?)
    ensures var s' := Next(s, step);
            && |s'.messages| == |s.messages| && s'.messages[i].id == s.messages[i].id
            && !HasJob(Outstanding(s'), s.messages[i].id)
            && (s'.messages[i].status == Pending <==> s.worker.batch[0].chat == Direct(s.localNode))
  {
    var job := s.worker.batch[0];
    HandledJobIsGone(s, step);
    assert s.messages[i] in s.messages;
    match LastIndex(s.messages, ById(job.id, job.chat))
    case None =>
    case Some(k) =>
      assert s.messages[k] in s.messages;
      assert k == i;
  }

  // ------------------------------------------------------------- from send to batch

  // A send stores one message, newest of all, pending, under its chat (the primary
  // channel if it is addressed to the local node), and holds one job for it.
  lemma SendStores(s: Sys, chat: Chat, text: string)
    ensures var t := Next(s, Send(chat, text));
            && t.messages != [] && t.nextId == s.nextId + 1
            && t.messages[|t.messages| - 1]
               == Message(s.nextId, if chat == Direct(s.localNode) then Channel(0) else chat, true, text, Pending, None,
                          false, None)
            && t.inHand == s.inHand + multiset{Job(s.nextId, chat, chat.Direct?)}
            && t.queue == s.queue && t.worker == s.worker
  {
    var added := Message(s.nextId, FiledUnder(chat, s.localNode), true, text, Pending, None, false, None);
    TruncationKeepsNewest(s.messages + [added], s.historyLimit);
  }

  // Jobs are sent in the order they were queued: queueing appends to what is to be
  // sent, and nothing but the worker's handling takes from it, at the front.
  function ToSend(s: Sys): seq<Job> {
    s.worker.batch + s.queue
  }

  lemma JobsAreFifo(s: Sys, step: Step)
    ensures match step
            case Enqueue(job) => ToSend(Next(s, step)) == (if job in s.inHand then ToSend(s) + [job] else ToSend(s))
            case ResolveOne(_) => ToSend(Next(s, step)) == ToSend(s)
                                  || (ToSend(s) != [] && ToSend(Next(s, step)) == ToSend(s)[1..])
            case FailOne => ToSend(Next(s, step)) == ToSend(s)
                            || (ToSend(s) != [] && ToSend(Next(s, step)) == ToSend(s)[1..])
            case EndBatch => ToSend(Next(s, step)) == ToSend(s)
                             || ToSend(Next(s, step)) == ToSend(s)[|s.worker.batch|..]
            case Restart => ToSend(Next(s, step)) == []
            case _ => ToSend(Next(s, step)) == ToSend(s)
  {
    if step.Enqueue? {
      assert s.worker.batch + (s.queue + [step.job]) == s.worker.batch + s.queue + [step.job];
    } else if step.Take? && s.queue != [] {
      assert s.worker.batch + [s.queue[0]] + s.queue[1..] == s.worker.batch + s.queue;
    } else if (step.ResolveOne? || step.FailOne?) && s.worker.batch != [] {
      assert s.worker.batch[1..] + s.queue == (s.worker.batch + s.queue)[1..];
    }
  }

  // Over every run a job asks for an ACK exactly if it goes to one node.
  ghost predicate DirectAsks(s: Sys) {
    forall job :: job in Outstanding(s) ==> (job.dm <==> job.chat.Direct?)
  }

  lemma StepKeepsDirect(s: Sys, step: Step)
    requires DirectAsks(s)
    ensures DirectAsks(Next(s, step))
  {
    match step
    case Send(chat, text) =>
      assert Outstanding(Next(s, step)) == Outstanding(s) + multiset{Job(s.nextId, chat, chat.Direct?)};
    case Retry(id, chat) =>
      if Retryable(s.messages, id, chat) {
        assert Outstanding(Next(s, step)) == Outstanding(s) + multiset{Job(id, chat, chat.Direct?)};
      }
    case _ => NoNewJobs(s, step);
  }

  lemma {:induction false} JobsAskIfDirect(s: Sys, steps: seq<Step>)
    requires DirectAsks(s)
    ensures DirectAsks(Exec(s, steps))
    decreases |steps|
  {
    if steps != [] {
      StepKeepsDirect(s, steps[0]);
      JobsAskIfDirect(Next(s, steps[0]), steps[1..]);
    }
  }

  // ------------------------------------------------------------ what a send becomes

  // Message m, sent by this job at time `now`, has become m': sent if the result is an
  // acceptance, with its packet id and, for a direct message, a minute to be
  // acknowledged; failed on any other result and on none.
  predicate Settles(m: Message, m': Message, job: Job, result: Option<SendResult>, now: real) {
    && m'.id == m.id && m'.chat == m.chat && m'.mine == m.mine && m'.text == m.text
    && if result.Some? && result.value.Accepted? then
         && m'.status == Status.Sent
         && m'.packet == (if result.value.packet.Some? then result.value.packet else m.packet)
         && m'.ackRequested == job.dm && m'.ackDeadline == (if job.dm then Some(now + 60.0) else None)
       else m'.status == Failed && m'.packet == m.packet && !m'.ackRequested && m'.ackDeadline == None
  }

  // The worker can handle the first job of its batch by this step, with this result.
  predicate Handles(s: Sys, step: Step, result: Option<SendResult>) {
    && s.worker.batch != []
    && ((step.ResolveOne? && s.worker.Resolving? && s.worker.results != [] && result == Some(s.worker.results[0]))
        || (step.FailOne? && s.worker.Failing? && result == None))
  }

  function Clock(step: Step): real {
    if step.ResolveOne? then step.now else 0.0
  }

  // Handling a job settles its message by its own result and leaves all others alone.
  lemma HandledJobSettles(s: Sys, step: Step, result: Option<SendResult>, i: nat)
    requires Inv(s) && Handles(s, step, result) && i < |s.messages|
    ensures |Next(s, step).messages| == |s.messages|
    ensures if s.messages[i].id == s.worker.batch[0].id && s.worker.batch[0].chat != Direct(s.localNode)
            then Settles(s.messages[i], Next(s, step).messages[i], s.worker.batch[0], result, Clock(step))
            else Next(s, step).messages[i] == s.messages[i]
  {
    var job := s.worker.batch[0];
    HandledJobIsGone(s, step);
    assert s.messages[i] in s.messages;
    match LastIndex(s.messages, ById(job.id, job.chat))
    case None => if s.messages[i].id == job.id { assert Linked(s.messages[i], Outstanding(s), s.orphans, s.localNode); }
    case Some(k) =>
      assert s.messages[k] in s.messages;
      if k == i { assert Linked(s.messages[i], Outstanding(s), s.orphans, s.localNode); }
  }

  function Repeated(n: nat, step: Step): seq<Step> {
    if n == 0 then [] else [step] + Repeated(n - 1, step)
  }

  // The worker can handle n jobs of its batch by repeating this step.
  predicate HandlesAll(s: Sys, n: nat, step: Step) {
    && n <= |s.worker.batch|
    && ((step.ResolveOne? && s.worker.Resolving? && n <= |s.worker.results|) || (step.FailOne? && s.worker.Failing?))
  }

  lemma RestOfBatch(s: Sys, step: Step, result: Option<SendResult>)
    requires Inv(s) && Handles(s, step, result)
    ensures |Next(s, step).worker.batch| == |s.worker.batch| - 1
    ensures Next(s, step).worker.batch == s.worker.batch[1..] && Next(s, step).localNode == s.localNode
    ensures step.FailOne? ==> Next(s, step).worker.Failing?
    ensures step.ResolveOne? ==> Next(s, step).worker == Resolving(s.worker.batch[1..], s.worker.results[1..])
    ensures forall k: nat :: 0 < k < |s.worker.batch| ==> s.worker.batch[k].id != s.worker.batch[0].id
  {
    HandledJobIsGone(s, step);
    var next := Next(s, step);
    forall k: nat | 0 < k < |s.worker.batch| ensures s.worker.batch[k].id != s.worker.batch[0].id {
      assert next.worker.batch[k - 1] in Outstanding(next);
    }
  }

  // From s to t the first job of the batch was handled, as far as message i goes.
  ghost predicate Handled(s: Sys, t: Sys, now: real, i: nat) {
    && i < |s.messages| == |t.messages| && s.worker.batch != [] && t.worker.batch == s.worker.batch[1..]
    && t.localNode == s.localNode && (forall j: nat :: ResultOf(t, j) == ResultOf(s, j + 1))
    && (forall j: nat :: 0 < j < |s.worker.batch| ==> s.worker.batch[j].id != s.worker.batch[0].id)
    && if s.messages[i].id == s.worker.batch[0].id && s.worker.batch[0].chat != Direct(s.localNode)
       then Settles(s.messages[i], t.messages[i], s.worker.batch[0], ResultOf(s, 0), now)
       else t.messages[i] == s.messages[i]
  }

  lemma OneHandled(s: Sys, n: nat, step: Step, i: nat) returns (next: Sys)
    requires Inv(s) && i < |s.messages| && n > 0 && HandlesAll(s, n, step)
    ensures Handled(s, next, Clock(step), i) && HandlesAll(next, n - 1, step) && Inv(next)
    ensures Exec(s, Repeated(n, step)) == Exec(next, Repeated(n - 1, step))
  {
    next := Next(s, step);
    HandledJobSettles(s, step, ResultOf(s, 0), i);
    RestOfBatch(s, step, ResultOf(s, 0));
    KeepsInv(s, step);
    assert Repeated(n, step)[1..] == Repeated(n - 1, step);
  }

  // The states the worker goes through.
  ghost predicate Chain(states: seq<Sys>, first: Sys, last: Sys, n: nat, now: real, i: nat) {
    && |states| == n + 1 && states[0] == first && states[n] == last
    && forall j: nat :: j < n ==> Handled(states[j], states[j + 1], now, i)
  }

  lemma Longer(states: seq<Sys>, first: Sys, next: Sys, last: Sys, n: nat, now: real, i: nat)
    requires Chain(states, next, last, n, now, i) && Handled(first, next, now, i)
    ensures Chain([first] + states, first, last, n + 1, now, i)
  {}

  lemma {:induction false} BatchStates(s: Sys, n: nat, step: Step, i: nat) returns (states: seq<Sys>)
    requires Inv(s) && i < |s.messages| && HandlesAll(s, n, step)
    ensures Chain(states, s, Exec(s, Repeated(n, step)), n, Clock(step), i)
    decreases n
  {
    if n == 0 {
      states := [s];
    } else {
      var next := OneHandled(s, n, step, i);
      var later := BatchStates(next, n - 1, step, i);
      Longer(later, s, next, Exec(next, Repeated(n - 1, step)), n - 1, Clock(step), i);
      states := [s] + later;
    }
  }

  lemma {:induction false} BatchSkips(states: seq<Sys>, now: real, i: nat)
    requires states != [] && i < |states[0].messages|
    requires forall j: nat :: j < |states| - 1 ==> Handled(states[j], states[j + 1], now, i)
    requires forall k: nat :: k < |states[0].worker.batch| ==> states[0].worker.batch[k].id != states[0].messages[i].id
    ensures |states[|states| - 1].messages| == |states[0].messages|
    ensures states[|states| - 1].messages[i] == states[0].messages[i]
  {
    if |states| > 1 {
      assert Handled(states[0], states[0 + 1], now, i);
      assert forall k: nat :: k < |states[1].worker.batch| ==>
               states[1].worker.batch[k] == states[0].worker.batch[k + 1];
      var rest := states[1..];
      assert forall j: nat :: j < |rest| ==> rest[j] == states[j + 1];
      BatchSkips(rest, now, i);
    }
  }

  // Message and result are paired by position.
  lemma {:induction false} BatchSettles(states: seq<Sys>, now: real, i: nat, k: nat)
    requires |states| > k + 1 && Sends(states[0], k, i)
    requires forall j: nat :: j < |states| - 1 ==> Handled(states[j], states[j + 1], now, i)
    ensures |states[|states| - 1].messages| == |states[0].messages|
    ensures Settles(states[0].messages[i], states[|states| - 1].messages[i], states[0].worker.batch[k],
                    ResultOf(states[0], k), now)
  {
    assert Handled(states[0], states[0 + 1], now, i);
    var rest := states[1..];
    assert forall j: nat :: j < |rest| ==> rest[j] == states[j + 1];
    if k == 0 {
      assert forall j: nat :: j < |states[1].worker.batch| ==>
               states[1].worker.batch[j] == states[0].worker.batch[j + 1];
      BatchSkips(rest, now, i);
    } else {
      assert states[1].worker.batch[k - 1] == states[0].worker.batch[k];
      BatchSettles(rest, now, i, k - 1);
    }
  }

  function ResultOf(s: Sys, k: nat): Option<SendResult> {
    if s.worker.Resolving? && k < |s.worker.results| then Some(s.worker.results[k]) else None
  }

  // The message of job k, once the worker is through with the batch it is handling.
  ghost predicate BatchEnds(s: Sys, step: Step, i: nat, job: Job, result: Option<SendResult>) {
    var t := Exec(s, Repeated(|s.worker.batch|, step));
    |t.messages| == |s.messages| && i < |s.messages| && Settles(s.messages[i], t.messages[i], job, result, Clock(step))
  }

  // Job k of the batch is that of message i, and not addressed to the local node.
  predicate Sends(s: Sys, k: nat, i: nat) {
    && k < |s.worker.batch| && i < |s.messages|
    && s.worker.batch[k].id == s.messages[i].id && s.worker.batch[k].chat != Direct(s.localNode)
  }

  lemma ChainSettles(states: seq<Sys>, s: Sys, last: Sys, now: real, i: nat, k: nat)
    requires Chain(states, s, last, |s.worker.batch|, now, i) && Sends(s, k, i)
    ensures |last.messages| == |s.messages|
    ensures Settles(s.messages[i], last.messages[i], s.worker.batch[k], ResultOf(s, k), now)
  {
    BatchSettles(states, now, i, k);
  }

  lemma WholeBatch(s: Sys, step: Step, i: nat, k: nat)
    requires Inv(s) && Sends(s, k, i)
    requires HandlesAll(s, |s.worker.batch|, step)
    ensures BatchEnds(s, step, i, s.worker.batch[k], ResultOf(s, k))
  {
    var states := BatchStates(s, |s.worker.batch|, step, i);
    ChainSettles(states, s, Exec(s, Repeated(|s.worker.batch|, step)), Clock(step), i, k);
  }

  lemma CommitSends(s: Sys)
    requires s.worker.Collecting? && s.worker.batch != []
    ensures Next(s, Commit(true)) == s.(worker := Sending(s.worker.batch))
  {}

  lemma SendingEnds(s: Sys, step: Step)
    requires s.worker.Sending? && (step.Reply? || step.SendRaises?)
    ensures Next(s, step)
            == s.(worker := if step.Reply? then Resolving(s.worker.batch, step.results) else Failing(s.worker.batch))
  {}

  lemma SendingKeepsInv(s: Sys, step: Step)
    requires Inv(s) && s.worker.Collecting? && s.worker.batch != [] && (step.Reply? || step.SendRaises?)
    ensures var t := Next(Next(s, Commit(true)), step);
            && Inv(t) && t.messages == s.messages && t.localNode == s.localNode
            && t.worker == if step.Reply? then Resolving(s.worker.batch, step.results) else Failing(s.worker.batch)
  {
    CommitSends(s);
    SendingEnds(s.(worker := Sending(s.worker.batch)), step);
    KeepsInv(s, Commit(true));
    KeepsInv(Next(s, Commit(true)), step);
  }

  // What becomes of a batch.  With the radio available and an answer for every job,
  // each message is settled by the result at its job's position ...
  lemma AnsweredBatch(s: Sys, results: seq<SendResult>, now: real, i: nat, k: nat)
    requires Inv(s) && s.worker.Collecting? && Sends(s, k, i) && |s.worker.batch| <= |results|
    ensures BatchEnds(Next(Next(s, Commit(true)), Reply(results)), ResolveOne(now), i, s.worker.batch[k],
                      Some(results[k]))
  {
    SendingKeepsInv(s, Reply(results));
    WholeBatch(Next(Next(s, Commit(true)), Reply(results)), ResolveOne(now), i, k);
  }

  // ... with the radio released every message fails ...
  lemma ReleasedBatch(s: Sys, i: nat, k: nat)
    requires Inv(s) && s.worker.Collecting? && Sends(s, k, i)
    ensures BatchEnds(Next(s, Commit(false)), FailOne, i, s.worker.batch[k], None)
  {
    KeepsInv(s, Commit(false));
    WholeBatch(Next(s, Commit(false)), FailOne, i, k);
  }

  // ... and so it does if the call raises.
  lemma RaisedBatch(s: Sys, i: nat, k: nat)
    requires Inv(s) && s.worker.Collecting? && Sends(s, k, i)
    ensures BatchEnds(Next(Next(s, Commit(true)), SendRaises), FailOne, i, s.worker.batch[k], None)
  {
    SendingKeepsInv(s, SendRaises);
    WholeBatch(Next(Next(s, Commit(true)), SendRaises), FailOne, i, k);
  }

  // --------------------------------------------------------------- final statuses

  predicate Final(status: Status) {
    status == Delivered || status == Unconfirmed
  }

  // What one step may do to a stored message.
  predicate Allowed(m: Message, m': Message) {
    || m'.status == m.status
    || (m.status == Pending && (m'.status == Status.Sent || m'.status == Failed))
    || (m.status == Failed && m'.status == Pending)
    || (AwaitsAck(m) && Final(m'.status))
  }

  // The list a step works on: a restart starts from the history file.
  function Before(s: Sys, step: Step): seq<Message> {
    if step.Restart? then s.saved else s.messages
  }

  ghost predicate IsBefore(s: Sys, step: Step, m: Message) {
    m in Before(s, step)
  }

  // Whatever is stored after a step was minted by it or was in the list before it,
  // and then its status moved only along the arrows of Allowed.
  lemma StepAllowed(s: Sys, step: Step, m': Message)
    requires Inv(s) && m' in Next(s, step).messages
    ensures m'.id >= s.nextId || exists m :: IsBefore(s, step, m) && m.id == m'.id && Allowed(m, m')
  {
    var s' := Next(s, step);
    if m' in Before(s, step) {
      assert IsBefore(s, step, m') && Allowed(m', m');
    } else {
      match step
      case AckTick(now) =>
        var i :| 0 <= i < |s.messages| && s'.messages[i] == m';
        assert IsBefore(s, step, s.messages[i]) && Allowed(s.messages[i], m');
      case Restart =>
        var i :| 0 <= i < |s.saved| && s'.messages[i] == m';
        assert IsBefore(s, step, s.saved[i]) && Allowed(s.saved[i], m');
      case RoutingAck(_, _) => OneChanged(s, step, m');
      case Retry(_, _) => OneChanged(s, step, m');
      case ResolveOne(_) => ResolvedWasPending(s, step, m');
      case FailOne => ResolvedWasPending(s, step, m');
      case Delete(id, chat) => WithoutIsPart(s.messages, id, chat);
      case Send(_, _) => AddedIsNew(s, step, m');
      case Receive(_, _, _, _) => AddedIsNew(s, step, m');
      case _ =>
    }
  }

  lemma OneChanged(s: Sys, step: Step, m': Message)
    requires (step.RoutingAck? || step.Retry?) && m' in Next(s, step).messages && m' !in s.messages
    ensures exists m :: IsBefore(s, step, m) && m.id == m'.id && Allowed(m, m')
  {
    var i := if step.RoutingAck? then LastIndex(s.messages, ByPacket(step.requestId)).value
             else LastIndex(s.messages, ById(step.id, step.chat)).value;
    assert IsBefore(s, step, s.messages[i]) && Allowed(s.messages[i], m');
  }

  lemma AddedIsNew(s: Sys, step: Step, m': Message)
    requires (step.Send? || step.Receive?) && m' in Next(s, step).messages && m' !in s.messages
    ensures m'.id >= s.nextId
  {
    var filed := FiledUnder(step.chat, s.localNode);
    var added := if step.Send? then Message(s.nextId, filed, true, step.text, Pending, None, false, None)
                 else Message(s.nextId, filed, step.mine, step.text, Status.Sent, step.packet, false, None);
    TruncatedIsPart(s.messages + [added], s.historyLimit);
  }

  lemma ResolvedWasPending(s: Sys, step: Step, m': Message)
    requires Inv(s) && (step.ResolveOne? || step.FailOne?)
    requires m' in Next(s, step).messages && m' !in s.messages
    ensures exists m :: IsBefore(s, step, m) && m.id == m'.id && Allowed(m, m')
  {
    var job := s.worker.batch[0];
    var i := LastIndex(s.messages, ById(job.id, job.chat)).value;
    assert job in Outstanding(s) && HasJob(Outstanding(s), s.messages[i].id);
    assert s.messages[i] in s.messages;
    assert IsBefore(s, step, s.messages[i]) && Allowed(s.messages[i], m');
  }

  // Every copy of a message in a list has this status.
  ghost predicate Reads(ms: seq<Message>, id: nat, status: Status) {
    forall m :: m in ms && m.id == id ==> m.status == status
  }

  ghost predicate KeepsStatus(s: Sys, id: nat, status: Status, steps: seq<Step>) {
    Reads(Exec(s, steps).messages, id, status)
  }

  ghost predicate FinalInv(s: Sys, id: nat, status: Status) {
    Inv(s) && id < s.nextId && Reads(s.messages, id, status) && Reads(s.saved, id, status)
  }

  lemma NextIdGrows(s: Sys, step: Step)
    ensures Next(s, step).nextId >= s.nextId
    ensures Next(s, step).saved == s.saved || Next(s, step).saved == s.messages
  {}

  lemma StepKeepsFinal(s: Sys, step: Step, id: nat, status: Status)
    requires FinalInv(s, id, status) && Final(status)
    ensures FinalInv(Next(s, step), id, status)
  {
    KeepsInv(s, step);
    NextIdGrows(s, step);
    forall m' | m' in Next(s, step).messages && m'.id == id ensures m'.status == status {
      StepAllowed(s, step, m');
      var m :| IsBefore(s, step, m) && m.id == m'.id && Allowed(m, m');
    }
  }

  lemma {:induction false} RunKeepsFinal(s: Sys, steps: seq<Step>, id: nat, status: Status)
    requires FinalInv(s, id, status) && Final(status)
    ensures FinalInv(Exec(s, steps), id, status)
    decreases |steps|
  {
    if steps != [] {
      StepKeepsFinal(s, steps[0], id, status);
      RunKeepsFinal(Next(s, steps[0]), steps[1..], id, status);
    }
  }

  // A delivered or unconfirmed message keeps that status over every run, late ACKs,
  // timeouts, retries and restarts included, if and only if the copy of it in the
  // history file, if there is one, has that status too.
  lemma FinalForeverIff(s: Sys, id: nat, status: Status)
    requires Inv(s) && id < s.nextId && Final(status) && Reads(s.messages, id, status)
    ensures Reads(s.saved, id, status) <==> forall steps :: KeepsStatus(s, id, status, steps)
  {
    if Reads(s.saved, id, status) {
      forall steps ensures KeepsStatus(s, id, status, steps) { RunKeepsFinal(s, steps, id, status); }
    } else {
      var m :| m in s.saved && m.id == id && m.status != status;
      var i :| 0 <= i < |s.saved| && s.saved[i] == m;
      var restarted := Next(s, Restart);
      assert [Restart][1..] == [] && Exec(s, [Restart]) == restarted;
      assert restarted.messages[i] == Reconciled(m) && restarted.messages[i] in restarted.messages;
      assert !KeepsStatus(s, id, status, [Restart]);
    }
  }

  lemma {:induction false} ExecAppend(s: Sys, steps: seq<Step>, last: Step)
    ensures Exec(s, steps + [last]) == Next(Exec(s, steps), last)
    decreases |steps|
  {
    if steps == [] {
      assert [] + [last] == [last];
    } else {
      assert (steps + [last])[1..] == steps[1..] + [last];
      ExecAppend(Next(s, steps[0]), steps[1..], last);
    }
  }

  // Where the condition fails: a delivery whose history write failed is undone by a
  // restart, and the message waits for its ACK again.
  lemma UnsavedDeliveryIsForgotten(s: Sys, requestId: int) returns (i: nat)
    requires Inv(s) && s.saved == s.messages
    requires exists m :: m in s.messages && m.packet == Some(requestId)
    requires forall m :: m in s.messages && m.packet == Some(requestId) ==> AwaitsAck(m)
    ensures var after := Exec(s, [RoutingAck(requestId, true)] + [Restart]);
            && i < |s.messages| == |after.messages| && AwaitsAck(after.messages[i])
            && Next(s, RoutingAck(requestId, true)).messages[i].status == Delivered
  {
    i := LastIndex(s.messages, ByPacket(requestId)).value;
    assert s.messages[i] in s.messages;
    ExecAppend(s, [RoutingAck(requestId, true)], Restart);
    assert Exec(s, [RoutingAck(requestId, true)]) == Next(s, RoutingAck(requestId, true));
  }

  // What was saved is what a restart starts from, pending sends failed.
  lemma SavedIsRestored(s: Sys, i: nat)
    requires i < |s.messages|
    ensures var t := Next(Next(s, Save), Restart);
            && |t.messages| == |s.messages|
            && t.messages[i] == s.messages[i].(status := if s.messages[i].status == Pending then Failed
                                                         else s.messages[i].status)
            && Outstanding(t) == multiset{}
  {}
}
