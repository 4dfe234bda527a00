/** The outgoing-message protocol (api/api_chat.py, server.py).

  Request threads store a message as "pending" and queue a job for it; a worker
  drains jobs in batches and resolves each one; routing ACKs, an ACK timeout, retry,
  delete, history truncation and restart all edit the same list.  The class holds
  the operations on that list; the state machine after it interleaves them. */
module Outgoing {
  import opened Prelude

  const ACK_TIMEOUT_SECONDS := 60.0

  datatype Chat = Channel(index: nat) | Direct(node: string)

  datatype Status = Pending | Sent | Failed | Delivered | Unconfirmed

  datatype Message = Message(id: nat, chat: Chat, mine: bool, text: string, status: Status,
                             packet: Option<int>, ackRequested: bool, ackDeadline: Option<real>)

  // ------------------------------------------------------------------- lookups

  datatype Query = ById(id: nat, chat: Chat) | ByPacket(packet: int)

  predicate Hits(m: Message, q: Query) {
    match q
    case ById(id, chat) => m.id == id && m.chat == chat
    case ByPacket(packet) => m.packet == Some(packet)
  }

  function LastIndex(ms: seq<Message>, q: Query): (r: Option<nat>)
    ensures r.None? ==> forall i :: 0 <= i < |ms| ==> !Hits(ms[i], q)
    ensures r.Some? ==> r.value < |ms| && Hits(ms[r.value], q)
                        && forall i :: r.value < i < |ms| ==> !Hits(ms[i], q)
  {
    if ms == [] then None
    else if Hits(ms[|ms| - 1], q) then Some(|ms| - 1)
    else LastIndex(ms[..|ms| - 1], q)
  }

  function FirstIndex(ms: seq<Message>, q: Query, from: nat): (r: Option<nat>)
    requires from <= |ms|
    ensures r.None? ==> forall i :: from <= i < |ms| ==> !Hits(ms[i], q)
    ensures r.Some? ==> from <= r.value < |ms| && Hits(ms[r.value], q)
                        && forall i :: from <= i < r.value ==> !Hits(ms[i], q)
    decreases |ms| - from
  {
    if from == |ms| then None
    else if Hits(ms[from], q) then Some(from)
    else FirstIndex(ms, q, from + 1)
  }

  // ------------------------------------------------- what each operation computes

  // Python's messages[-limit:], which keeps everything when limit is 0.
  function Truncated(ms: seq<Message>, limit: nat): seq<Message> {
    if limit == 0 || |ms| <= limit then ms else ms[|ms| - limit..]
  }

  // A message addressed to the local node is filed under the primary channel.
  function FiledUnder(chat: Chat, localNode: string): Chat {
    if chat == Direct(localNode) then Channel(0) else chat
  }

  function Resolved(m: Message, status: Status, packet: Option<int>, ack: bool, now: real): Message {
    m.(status := status,
       packet := if packet.Some? then packet else m.packet,
       ackRequested := ack || m.ackRequested,
       ackDeadline := if ack then Some(now + ACK_TIMEOUT_SECONDS) else m.ackDeadline)
  }

  function StatusUpdated(ms: seq<Message>, id: nat, chat: Chat, status: Status,
                         packet: Option<int>, ack: bool, now: real): seq<Message> {
    match LastIndex(ms, ById(id, chat))
    case None => ms
    case Some(i) => ms[i := Resolved(ms[i], status, packet, ack, now)]
  }

  predicate AwaitsAck(m: Message) {
    m.ackRequested && m.status == Sent
  }

  function Acknowledged(ms: seq<Message>, packet: int, isAck: bool): seq<Message> {
    match LastIndex(ms, ByPacket(packet))
    case None => ms
    case Some(i) =>
      if AwaitsAck(ms[i])
      then ms[i := ms[i].(status := if isAck then Delivered else Unconfirmed, ackDeadline := None)]
      else ms
  }

  // A deadline of 0 is false in Python, so it never expires.
  function TimedOut(m: Message, now: real): Message {
    if AwaitsAck(m) && m.ackDeadline.Some? && m.ackDeadline.value != 0.0 && now >= m.ackDeadline.value
    then m.(status := Unconfirmed, ackDeadline := None)
    else m
  }

  function Reconciled(m: Message): Message {
    if m.status == Pending then m.(status := Failed) else m
  }

  function Without(ms: seq<Message>, id: nat, chat: Chat): seq<Message> {
    match FirstIndex(ms, ById(id, chat), 0)
    case None => ms
    case Some(i) => ms[..i] + ms[i + 1..]
  }

  predicate Retryable(ms: seq<Message>, id: nat, chat: Chat) {
    match LastIndex(ms, ById(id, chat))
    case None => false
    case Some(i) => ms[i].mine && ms[i].status == Failed && ms[i].text != ""
  }

  function Requeued(ms: seq<Message>, id: nat, chat: Chat): seq<Message>
    requires Retryable(ms, id, chat)
  {
    var i := LastIndex(ms, ById(id, chat)).value;
    ms[i := ms[i].(status := Pending)]
  }

  class MessageStore {
    const historyLimit: nat
    const localNode: string
    var messages: seq<Message>

    constructor (historyLimit: nat, localNode: string)
      ensures messages == []
    {
      this.historyLimit := historyLimit;
      this.localNode := localNode;
      messages := [];
    }

    method AddMessage(id: nat, chat: Chat, mine: bool, text: string, status: Status, packet: Option<int>)
      modifies this
      ensures messages == Truncated(
        old(messages) + [Message(id, FiledUnder(chat, localNode), mine, text, status, packet, false, None)],
        historyLimit)
    {
      var filed := chat;
      if filed == Direct(localNode) {
        filed := Channel(0);
      }
      messages := messages + [Message(id, filed, mine, text, status, packet, false, None)];
      if historyLimit != 0 && |messages| > historyLimit {
        messages := messages[|messages| - historyLimit..];
      }
    }

    method UpdateMessageStatus(id: nat, chat: Chat, status: Status, packet: Option<int>, ack: bool, now: real)
      returns (found: bool)
      modifies this
      ensures messages == StatusUpdated(old(messages), id, chat, status, packet, ack, now)
      ensures found == exists m :: m in old(messages) && Hits(m, ById(id, chat))
    {
      var i := |messages|;
      while i > 0
        invariant 0 <= i <= |messages| && messages == old(messages)
        invariant forall j :: i <= j < |messages| ==> !Hits(messages[j], ById(id, chat))
      {
        i := i - 1;
        var m := messages[i];
        if m.id == id && m.chat == chat {
          m := m.(status := status);
          if packet.Some? {
            m := m.(packet := packet);
          }
          if ack {
            m := m.(ackRequested := true, ackDeadline := Some(now + ACK_TIMEOUT_SECONDS));
          }
          assert Hits(messages[i], ById(id, chat));
          messages := messages[i := m];
          return true;
        }
      }
      return false;
    }

    method ProcessRoutingAck(packet: int, isAck: bool)
      modifies this
      ensures messages == Acknowledged(old(messages), packet, isAck)
    {
      var i := |messages|;
      while i > 0
        invariant 0 <= i <= |messages| && messages == old(messages)
        invariant forall j :: i <= j < |messages| ==> !Hits(messages[j], ByPacket(packet))
      {
        i := i - 1;
        var m := messages[i];
        if m.packet == Some(packet) {
          if m.ackRequested && m.status == Sent {
            messages := messages[i := m.(status := if isAck then Delivered else Unconfirmed, ackDeadline := None)];
          }
          return;
        }
      }
    }

    method AckTimeoutPass(now: real)
      modifies this
      ensures |messages| == |old(messages)|
      ensures forall i :: 0 <= i < |messages| ==> messages[i] == TimedOut(old(messages)[i], now)
    {
      for i := 0 to |messages|
        invariant |messages| == |old(messages)|
        invariant forall j :: 0 <= j < i ==> messages[j] == TimedOut(old(messages)[j], now)
        invariant forall j :: i <= j < |messages| ==> messages[j] == old(messages)[j]
      {
        var m := messages[i];
        if m.status == Sent && m.ackRequested && m.ackDeadline.Some? && m.ackDeadline.value != 0.0
           && now >= m.ackDeadline.value
        {
          messages := messages[i := m.(status := Unconfirmed, ackDeadline := None)];
        }
      }
    }

    method ReconcileInterruptedSends()
      modifies this
      ensures |messages| == |old(messages)|
      ensures forall i :: 0 <= i < |messages| ==> messages[i] == Reconciled(old(messages)[i])
    {
      for i := 0 to |messages|
        invariant |messages| == |old(messages)|
        invariant forall j :: 0 <= j < i ==> messages[j] == Reconciled(old(messages)[j])
        invariant forall j :: i <= j < |messages| ==> messages[j] == old(messages)[j]
      {
        if messages[i].status == Pending {
          messages := messages[i := messages[i].(status := Failed)];
        }
      }
    }

    method DeleteMessage(id: nat, chat: Chat) returns (found: bool)
      modifies this
      ensures messages == Without(old(messages), id, chat)
      ensures found == exists m :: m in old(messages) && Hits(m, ById(id, chat))
    {
      var index := 0;
      while index < |messages|
        invariant 0 <= index <= |messages| && messages == old(messages)
        invariant FirstIndex(messages, ById(id, chat), 0) == FirstIndex(messages, ById(id, chat), index)
      {
        if messages[index].id == id && messages[index].chat == chat {
          assert Hits(messages[index], ById(id, chat));
          messages := messages[..index] + messages[index + 1..];
          return true;
        }
        index := index + 1;
      }
      return false;
    }

    // The part of /api/send/retry that runs under the lock.
    method Retry(id: nat, chat: Chat) returns (accepted: bool)
      modifies this
      ensures accepted == Retryable(old(messages), id, chat)
      ensures messages == if accepted then Requeued(old(messages), id, chat) else old(messages)
    {
      var i := |messages|;
      while i > 0
        invariant 0 <= i <= |messages| && messages == old(messages)
        invariant forall j :: i <= j < |messages| ==> !Hits(messages[j], ById(id, chat))
      {
        i := i - 1;
        var m := messages[i];
        if m.id == id && m.chat == chat {
          assert Hits(messages[i], ById(id, chat));
          if !m.mine || m.status != Failed || m.text == "" {
            return false;
          }
          messages := messages[i := m.(status := Pending)];
          return true;
        }
      }
      return false;
    }
  }

  // ------------------------------------------------------- what the operations mean

  // All but these positions of a list are left alone.
  predicate SameBut(after: seq<Message>, before: seq<Message>, i: nat) {
    |after| == |before| && forall j :: 0 <= j < |before| && j != i ==> after[j] == before[j]
  }

  // The history keeps the newest messages, in order, as many as it may hold; a limit
  // of 0 keeps them all.
  lemma TruncationKeepsNewest(ms: seq<Message>, limit: nat)
    ensures var kept := Truncated(ms, limit);
            && |kept| == (if limit == 0 || |ms| <= limit then |ms| else limit)
            && forall k :: 0 <= k < |kept| ==> kept[k] == ms[|ms| - |kept| + k]
  {}

  lemma LastIndexIs(ms: seq<Message>, q: Query, i: nat)
    requires i < |ms| && Hits(ms[i], q) && forall j :: i < j < |ms| ==> !Hits(ms[j], q)
    ensures LastIndex(ms, q) == Some(i)
  {}

  lemma FirstIndexIs(ms: seq<Message>, q: Query, i: nat)
    requires i < |ms| && Hits(ms[i], q) && forall j :: 0 <= j < i ==> !Hits(ms[j], q)
    ensures FirstIndex(ms, q, 0) == Some(i)
  {}

  // A message waiting for the ACK of its packet is delivered by an ACK and unconfirmed
  // by anything else; of several with one packet id only the last counts.
  lemma AckDecides(ms: seq<Message>, packet: int, isAck: bool, i: nat)
    requires i < |ms| && ms[i].packet == Some(packet)
    requires forall j :: i < j < |ms| ==> ms[j].packet != Some(packet)
    ensures var after := Acknowledged(ms, packet, isAck);
            && SameBut(after, ms, i)
            && after[i].(status := ms[i].status, ackDeadline := ms[i].ackDeadline) == ms[i]
            && if ms[i].status == Sent && ms[i].ackRequested then
                 after[i].status == (if isAck then Delivered else Unconfirmed) && after[i].ackDeadline == None
               else after[i] == ms[i]
  {
    LastIndexIs(ms, ByPacket(packet), i);
  }

  lemma UnknownAckIsIgnored(ms: seq<Message>, packet: int, isAck: bool)
    requires forall m :: m in ms ==> m.packet != Some(packet)
    ensures Acknowledged(ms, packet, isAck) == ms
  {
    forall i | 0 <= i < |ms| ensures !Hits(ms[i], ByPacket(packet)) { assert ms[i] in ms; }
  }

  // A message sent at time `sent` asking for an ACK is given up exactly 60 s later.
  lemma TimeoutDecides(m: Message, sent: real, now: real)
    requires m.status == Sent && m.ackRequested && m.ackDeadline == Some(sent + 60.0) && sent + 60.0 != 0.0
    ensures TimedOut(m, now).status == (if now - sent >= 60.0 then Unconfirmed else Sent)
    ensures TimedOut(m, now).ackDeadline == (if now - sent >= 60.0 then None else m.ackDeadline)
  {}

  // Deleting takes out the one message and nothing else.
  lemma DeletedIsGone(ms: seq<Message>, id: nat, chat: Chat, i: nat)
    requires i < |ms| && ms[i].id == id && ms[i].chat == chat
    requires forall j :: 0 <= j < i ==> ms[j].id != id || ms[j].chat != chat
    ensures var after := Without(ms, id, chat);
            && |after| == |ms| - 1
            && (forall j :: 0 <= j < i ==> after[j] == ms[j])
            && forall j :: i <= j < |after| ==> after[j] == ms[j + 1]
  {
    FirstIndexIs(ms, ById(id, chat), i);
  }

  // Exactly a failed message of one's own that has text goes back to pending, and
  // changes in nothing else.
  lemma RetryDecides(ms: seq<Message>, id: nat, chat: Chat, i: nat)
    requires i < |ms| && ms[i].id == id && ms[i].chat == chat
    requires forall j :: i < j < |ms| ==> ms[j].id != id || ms[j].chat != chat
    ensures Retryable(ms, id, chat) <==> ms[i].mine && ms[i].status == Failed && ms[i].text != ""
    ensures Retryable(ms, id, chat) ==>
              SameBut(Requeued(ms, id, chat), ms, i)
              && Requeued(ms, id, chat)[i].status == Pending
              && Requeued(ms, id, chat)[i].(status := Failed) == ms[i]
  {
    LastIndexIs(ms, ById(id, chat), i);
  }

  // A restart turns pending into failed and touches nothing else.
  lemma ReconcileDecides(m: Message)
    ensures Reconciled(m).status == (if m.status == Pending then Failed else m.status)
    ensures Reconciled(m).(status := m.status) == m
  {}
}
