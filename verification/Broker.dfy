/** The message loop of the LISTEN/NOTIFY broker. */
module Broker {
  import opened Options

  /**
   A notification's payload, parsed: a JSON object with the two fields the
   broker reads, or anything else, which is taken for an id once stripped.
   */
  datatype Payload =
    | Object(taskId: Option<string>, queue: Option<string>)
    | Text(stripped: string)

  datatype Message = Message(taskId: string, raw: Payload)

  /** A worker with a queue is deaf to payloads that do not name it; no worker hears one without an id. */
  function ToMessage(payload: Payload, queueName: string): Option<Message> {
    var taskId := match payload
      case Object(id, _) => if id.Some? then id.value else ""
      case Text(stripped) => stripped;
    var notified := if payload.Object? then payload.queue else None;
    if taskId == "" then None
    else if queueName != "" && notified != Some(queueName) then None
    else Some(Message(taskId, payload))
  }

  /** The messages of the payloads that are accepted, in their order. */
  function Accepted(payloads: seq<Payload>, queueName: string): seq<Message> {
    if payloads == [] then [] else
    var message := ToMessage(payloads[|payloads| - 1], queueName);
    Accepted(payloads[..|payloads| - 1], queueName) + if message.Some? then [message.value] else []
  }

  lemma {:induction false} AcceptedConcat(a: seq<Payload>, b: seq<Payload>, queueName: string)
    ensures Accepted(a + b, queueName) == Accepted(a, queueName) + Accepted(b, queueName)
    decreases |b|
  {
    if b == [] {
      assert a + b == a;
    } else {
      assert (a + b)[..|a + b| - 1] == a + b[..|b| - 1];
      AcceptedConcat(a, b[..|b| - 1], queueName);
    }
  }

  /**
   A payload is accepted exactly if it names a task, in its own field or as all
   of its text, and, for a worker with a queue, is an object that names it.
   */
  lemma ToMessageIs(p: Payload, queueName: string, id: string)
    ensures ToMessage(p, queueName) == Some(Message(id, p)) <==>
      && id != "" && ((p.Object? && p.taskId == Some(id)) || (p.Text? && p.stripped == id))
      && (queueName == "" || (p.Object? && p.queue == Some(queueName)))
    ensures ToMessage(p, queueName).Some? ==> ToMessage(p, queueName).value.raw == p
  {
  }

  /** The messages are those of the payloads that are accepted, all of them. */
  lemma {:induction false} AcceptedAre(payloads: seq<Payload>, queueName: string)
    ensures forall id, p :: Message(id, p) in Accepted(payloads, queueName) <==>
      && p in payloads
      && id != "" && ((p.Object? && p.taskId == Some(id)) || (p.Text? && p.stripped == id))
      && (queueName == "" || (p.Object? && p.queue == Some(queueName)))
  {
    if payloads == [] {
    } else {
      var init, last := payloads[..|payloads| - 1], payloads[|payloads| - 1];
      AcceptedAre(init, queueName);
      forall id, p ensures Message(id, p) in Accepted(payloads, queueName) <==>
          Message(id, p) in Accepted(init, queueName) || (p == last && ToMessage(p, queueName) == Some(Message(id, p)))
      {
        ToMessageIs(last, queueName, id);
      }
      forall id {
        ToMessageIs(last, queueName, id);
      }
    }
  }

  /** And in their order: at are the places of the accepted payloads. */
  lemma {:induction false} AcceptedInOrder(payloads: seq<Payload>, queueName: string) returns (at: seq<nat>)
    ensures |at| == |Accepted(payloads, queueName)|
    ensures forall i :: 0 <= i < |at| ==> at[i] < |payloads| && Accepted(payloads, queueName)[i].raw == payloads[at[i]]
    ensures forall i, j :: 0 <= i < j < |at| ==> at[i] < at[j]
    ensures forall k: nat :: k in at <==>
      && k < |payloads|
      && (if payloads[k].Object? then payloads[k].taskId.Some? && payloads[k].taskId.value != ""
          else payloads[k].stripped != "")
      && (queueName == "" || (payloads[k].Object? && payloads[k].queue == Some(queueName)))
  {
    if payloads == [] {
      at := [];
    } else {
      var n := |payloads| - 1;
      var earlier := AcceptedInOrder(payloads[..n], queueName);
      assert forall k :: 0 <= k < n ==> payloads[..n][k] == payloads[k];
      at := earlier;
      var message := ToMessage(payloads[n], queueName);
      if message.Some? {
        at := earlier + [n];
        assert Accepted(payloads, queueName) == Accepted(payloads[..n], queueName) + [message.value];
        assert forall k :: k in at <==> k in earlier || k == n;
      }
    }
  }

  class PostgresNotifyBroker {
    /** The queue the worker was started for; empty for every queue. */
    const queueName: string
    /** Whether the listening connection is open, and what was delivered on it and not yet taken. */
    var open: bool
    var pending: seq<Payload>
    /** How many more waits of a receive may end without a notification. */
    var patience: nat
    /** How many connections there were, and the notifications that were dropped with them. */
    ghost var connections: nat
    ghost var dropped: seq<Payload>
    /** On the last one: what was delivered, what was taken, and what receive returned. */
    ghost var delivered: seq<Payload>
    ghost var taken: seq<Payload>
    ghost var returned: seq<Message>

    /**
     Of what was delivered, nothing is repeated or reordered: it was taken, and
     returned if accepted, or is pending.
     */
    ghost predicate Valid()
      reads this
    {
      delivered == taken + pending && returned == Accepted(taken, queueName)
    }

    /**
     On the same connection what was delivered and taken only grows, and
     nothing is dropped. A new one has heard nothing yet, and exactly what was
     pending on the one before it is dropped.
     */
    twostate predicate Continues(messages: seq<Message>)
      reads this
    {
      if connections == old(connections) then
        && old(delivered) <= delivered && old(taken) <= taken
        && returned == old(returned) + messages && dropped == old(dropped)
      else
        && connections == old(connections) + 1
        && returned == messages && dropped == old(dropped) + old(pending)
    }

    constructor (queueName: string)
      ensures Valid() && !open && this.queueName == queueName
    {
      this.queueName := queueName;
      open, pending, patience := false, [], *;
      connections, dropped, delivered, taken, returned := 0, [], [], [], [];
    }

    /** Opens a connection unless there is one; one may have been lost since, and opening another may fail. */
    method GetConnection()
      requires Valid()
      modifies this
      ensures Valid() && Continues([]) && patience == old(patience)
      ensures open && !old(open) ==> connections == old(connections) + 1
    {
      var lost: bool := *;
      if lost {
        open := false;
      }
      if !open {
        var refused: bool := *;
        if !refused {
          connections, dropped := connections + 1, dropped + pending;
          open, pending := true, [];
          delivered, taken, returned := [], [], [];
        }
      }
    }

    /** Reads what has arrived on the connection, which may fail. */
    method ConsumeInput() returns (ok: bool)
      requires Valid() && open
      modifies `pending, `delivered
      ensures Valid() && old(delivered) <= delivered
    {
      ok := *;
      var arrived: seq<Payload> := *;
      if ok {
        pending := pending + arrived;
        delivered := delivered + arrived;
        assert delivered == taken + pending;
      }
    }

    /** Takes the first notification, and the message it makes, if any. */
    method Take() returns (message: Option<Message>)
      requires delivered == taken + pending && pending != []
      modifies `pending, `taken
      ensures delivered == taken + pending && |pending| == |old(pending)| - 1
      ensures taken == old(taken) + [old(pending)[0]] && message == ToMessage(old(pending)[0], queueName)
      ensures Accepted(taken, queueName)
        == old(Accepted(taken, queueName)) + if message.Some? then [message.value] else []
    {
      var payload := pending[0];
      pending := pending[1..];
      assert (taken + [payload])[..|taken|] == taken;
      taken := taken + [payload];
      message := ToMessage(payload, queueName);
    }

    /**
     Takes the notifications delivered, one at a time, until there are enough
     messages. What is not taken stays for the next call.
     */
    method Drain(maxMessages: int) returns (messages: seq<Message>)
      requires Valid() && open
      modifies `pending, `taken
      ensures delivered == taken + pending && old(taken) <= taken
      ensures Accepted(taken, queueName) == old(Accepted(taken, queueName)) + messages
      ensures |messages| <= (if maxMessages < 1 then 1 else maxMessages)
      ensures pending != [] ==>
        |messages| >= maxMessages && messages != [] && ToMessage(taken[|taken| - 1], queueName).Some?
    {
      messages := [];
      while pending != []
        invariant delivered == taken + pending && old(taken) <= taken
        invariant Accepted(taken, queueName) == old(Accepted(taken, queueName)) + messages
        invariant messages == [] || |messages| < maxMessages
        decreases |pending|
      {
        ghost var before, found := taken, Accepted(taken, queueName);
        var message := Take();
        assert before <= taken;
        if message.Some? {
          assert found + [message.value] == old(Accepted(taken, queueName)) + (messages + [message.value]);
          messages := messages + [message.value];
          if |messages| >= maxMessages {
            return;
          }
        }
      }
    }

    /** One look at the connection, and the messages it gives. */
    method TakeWhatArrived(maxMessages: int) returns (ok: bool, messages: seq<Message>)
      requires Valid() && open
      modifies `pending, `delivered, `taken, `returned
      ensures Valid() && old(taken) <= taken && old(delivered) <= delivered
      ensures returned == old(returned) + messages
      ensures |messages| <= (if maxMessages < 1 then 1 else maxMessages)
      ensures !ok ==> messages == [] && taken == old(taken)
      ensures ok && pending != [] ==> messages != [] && |messages| >= maxMessages
    {
      messages := [];
      ok := ConsumeInput();
      if ok {
        messages := Drain(maxMessages);
        returned := returned + messages;
      }
    }

    /**
     The accepted messages among the notifications newly taken in this call,
     which are all there are unless they are as many as asked for; None when
     there is no connection, or it failed and was closed. Then the call took
     none that is accepted, and what is pending goes with the connection.
     */
    method Receive(maxMessages: int) returns (result: Option<seq<Message>>, ghost newly: seq<Payload>)
      requires Valid()
      modifies this
      ensures Valid() && open == result.Some?
      ensures if connections == old(connections) then
          && old(delivered) <= delivered && old(taken) <= taken && dropped == old(dropped)
          && returned == old(returned) + if result.Some? then result.value else []
        else
          && connections == old(connections) + 1 && dropped == old(dropped) + old(pending)
          && returned == if result.Some? then result.value else []
      ensures result.Some? ==> |result.value| <= (if maxMessages < 1 then 1 else maxMessages)
      ensures result.Some? && pending != [] ==> result.value != [] && |result.value| >= maxMessages
      ensures result.Some? && !old(open) ==> connections == old(connections) + 1
      ensures taken == (if connections == old(connections) then old(taken) else []) + newly
      ensures var messages := if result.Some? then result.value else [];
        forall id, p :: Message(id, p) in messages <==>
        && p in newly
        && id != "" && ((p.Object? && p.taskId == Some(id)) || (p.Text? && p.stripped == id))
        && (queueName == "" || (p.Object? && p.queue == Some(queueName)))
      ensures (if result.Some? then result.value else []) == Accepted(newly, queueName)
    {
      hide Accepted;
      GetConnection();
      if open {
        result := Listen(maxMessages);
      } else {
        result := None;
      }
      ghost var before := if connections == old(connections) then old(taken) else [];
      newly := taken[|before|..];
      assert taken == before + newly;
      AcceptedConcat(before, newly, queueName);
      NoneAccepted();
      ghost var messages := if result.Some? then result.value else [];
      assert returned == Accepted(before, queueName) + messages;
      assert messages == returned[|Accepted(before, queueName)|..] == Accepted(newly, queueName);
      AcceptedAre(newly, queueName);
    }

    lemma NoneAccepted()
      ensures Accepted([], queueName) == []
    {
    }

    /** The loop, on an open connection. */
    method Listen(maxMessages: int) returns (result: Option<seq<Message>>)
      requires Valid() && open
      modifies `open, `patience, `pending, `delivered, `taken, `returned
      ensures Valid() && open == result.Some?
      ensures old(delivered) <= delivered && old(taken) <= taken
      ensures returned == old(returned) + if result.Some? then result.value else []
      ensures result.Some? ==> |result.value| <= (if maxMessages < 1 then 1 else maxMessages)
      ensures result.Some? && pending != [] ==> result.value != [] && |result.value| >= maxMessages
    {
      hide Accepted;
      while true
        invariant Valid() && open && returned == old(returned)
        invariant old(delivered) <= delivered && old(taken) <= taken
        decreases patience
      {
        var ok, messages := TakeWhatArrived(maxMessages);
        if !ok {
          open := false;
          return None;
        }
        if messages != [] {
          return Some(messages);
        }
        var over: bool := *;
        if over || patience == 0 {
          return Some(messages);
        }
        patience := patience - 1;
        var broken: bool := *;
        if broken {
          open := false;
          return None;
        }
      }
    }
  }
}
