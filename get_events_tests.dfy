// The long-poll scenarios of the test suite: two clients that take message
// events, a message sent with a local id from one of them, and a client whose
// narrow selects one stream.  Sending a message is modelled as handing each
// client the copy of the message event meant for its queue.

module GetEventsTests {
  import opened Events
  import opened QueueSpec
  import opened EventQueues
  import opened Delivery

  const Hamlet := "hamlet@zulip.com"
  const Othello := "othello@zulip.com"

  /** A personal message from hamlet to othello. */
  const ToOthello := Message(Hamlet, Personal(Othello), "hello")

  /** Delivers `m`, sent with `localId` from the queue `senderQueueId`, to one client. */
  method Deliver(client: ClientDescriptor, m: Message, localId: Option<string>, senderQueueId: string)
    requires client.Valid()
    modifies client.queue
    ensures client.Valid()
    ensures client.queue.State() ==
            var d := EventData(MessageCopyFor(m, localId, Some(senderQueueId), client.queue.queueId), None);
            if Accepts(client.eventTypes, client.narrow, d) then QueueSpec.Push(old(client.queue.State()), d)
            else old(client.queue.State())
  {
    client.AddEvent(EventData(MessageCopyFor(m, localId, Some(senderQueueId), client.queue.queueId), None));
  }

  /** A message event is never collapsed: it is appended with the next id. */
  lemma MessageAppended(s: QueueState, b: Body)
    requires b.MessageEvent?
    ensures QueueSpec.Push(s, EventData(b, None)) ==
            QueueState(s.live + [Event(s.nextId, EventData(b, None))], s.tracked, s.nextId + 1)
  {
  }

  /** A client that asks for message events and no narrow takes every message event. */
  lemma TakesMessages(b: Body)
    requires b.MessageEvent?
    ensures Accepts(["message"], [], EventData(b, None))
  {
  }

  /**
   * hamlet sends a personal message to othello with `localId`: hamlet's queue
   * gets it with that local id, othello's without.
   */
  method Send(sender: ClientDescriptor, recipient: ClientDescriptor, localId: string)
    requires sender.Valid() && recipient.Valid() && sender.queue != recipient.queue
    requires sender.queue.queueId != recipient.queue.queueId
    requires sender.eventTypes == recipient.eventTypes == ["message"] && sender.narrow == recipient.narrow == []
    modifies sender.queue, recipient.queue
    ensures sender.Valid() && recipient.Valid()
    ensures sender.queue.live ==
            old(sender.queue.live) + [Event(old(sender.queue.nextEventId), EventData(MessageEvent(ToOthello, Some(localId)), None))]
    ensures recipient.queue.live ==
            old(recipient.queue.live) + [Event(old(recipient.queue.nextEventId), EventData(MessageEvent(ToOthello, None), None))]
    ensures sender.queue.nextEventId == old(sender.queue.nextEventId) + 1
    ensures recipient.queue.nextEventId == old(recipient.queue.nextEventId) + 1
  {
    var own := MessageEvent(ToOthello, Some(localId));
    var other := MessageEvent(ToOthello, None);
    assert MessageCopyFor(ToOthello, Some(localId), Some(sender.queue.queueId), sender.queue.queueId) == own;
    assert MessageCopyFor(ToOthello, Some(localId), Some(sender.queue.queueId), recipient.queue.queueId) == other;
    TakesMessages(own);
    TakesMessages(other);
    MessageAppended(sender.queue.State(), own);
    MessageAppended(recipient.queue.State(), other);
    Deliver(sender, ToOthello, Some(localId), sender.queue.queueId);
    Deliver(recipient, ToOthello, Some(localId), sender.queue.queueId);
  }

  /** A poll with -1 returns everything the queue holds. */
  method PollFromStart(client: ClientDescriptor) returns (events: seq<Event>)
    requires client.Valid()
    modifies client.queue
    ensures client.Valid()
    ensures events == old(client.queue.live) && client.queue.State() == Read(old(client.queue.State()))
  {
    events := client.GetEvents(-1);
    NewerThanFromStart(old(client.queue.live), -1);
  }

  /**
   * A second message after the sender has seen everything in its queue: a
   * poll from the last id seen returns just that message.
   */
  method SendAndPoll(sender: ClientDescriptor, recipient: ClientDescriptor, localId: string, lastEventId: int)
    returns (events: seq<Event>)
    requires sender.Valid() && recipient.Valid() && sender.queue != recipient.queue
    requires sender.queue.queueId != recipient.queue.queueId
    requires sender.eventTypes == recipient.eventTypes == ["message"] && sender.narrow == recipient.narrow == []
    requires forall e :: e in sender.queue.live ==> e.id <= lastEventId
    requires lastEventId < sender.queue.nextEventId
    modifies sender.queue, recipient.queue
    ensures sender.Valid() && recipient.Valid()
    ensures events == [Event(old(sender.queue.nextEventId), EventData(MessageEvent(ToOthello, Some(localId)), None))]
    ensures recipient.queue.live ==
            old(recipient.queue.live) + [Event(old(recipient.queue.nextEventId), EventData(MessageEvent(ToOthello, None), None))]
  {
    ghost var seen := sender.queue.live;
    Send(sender, recipient, localId);
    ghost var sent := sender.queue.live;
    events := sender.GetEvents(lastEventId);
    NewerThanAppend(seen, sent[|seen|..], lastEventId);
    assert seen + sent[|seen|..] == sent;
    NewerThanNone(seen, lastEventId);
  }

  /**
   * The sender's own queue sees each of its messages with the local id it
   * sent, a poll from the last id seen returns only the newer message, and the
   * recipient's queue holds both messages without a local id.
   */
  method GetEvents()
    returns (first: seq<Event>, second: seq<Event>, third: seq<Event>, received: seq<Event>)
    ensures first == []
    ensures |second| == 1 && second[0].data.body == MessageEvent(ToOthello, Some("10.01"))
    ensures |third| == 1 && third[0].data.body == MessageEvent(ToOthello, Some("10.02"))
    ensures |received| == 2
    ensures forall i :: 0 <= i < 2 ==> received[i].data.body == MessageEvent(ToOthello, None)
  {
    var sender := new ClientDescriptor("sender", ["message"], []);
    var recipient := new ClientDescriptor("recipient", ["message"], []);
    first := PollFromStart(sender);
    Send(sender, recipient, "10.01");
    second := PollFromStart(sender);
    third := SendAndPoll(sender, recipient, "10.02", second[0].id);
    received := PollFromStart(recipient);
  }

  lemma DenmarkMatchesNarrow()
    ensures Lower("Denmark") == Lower("denmark")
  {
    var a := Lower("Denmark");
    var b := Lower("denmark");
    assert a[0] == LowerChar('D') == 'd';
    assert a == b;
  }

  /**
   * A client narrowed to the stream "denmark" is not handed a personal
   * message, and is handed a message to the stream "Denmark".
   */
  method GetEventsNarrow() returns (first: seq<Event>, second: seq<Event>)
    ensures first == []
    ensures |second| == 1 && second[0].data.body.MessageEvent?
    ensures second[0].data.body.message.recipient == Stream("Denmark")
  {
    var client := new ClientDescriptor("narrowed", ["message"], [NarrowTerm("stream", "denmark")]);
    first := PollFromStart(client);
    var toDenmark := Message(Hamlet, Stream("Denmark"), "hello");
    var personal := EventData(MessageCopyFor(ToOthello, None, Some(client.queue.queueId), client.queue.queueId), None);
    var streamed := EventData(MessageCopyFor(toDenmark, None, Some(client.queue.queueId), client.queue.queueId), None);
    StreamNarrowAccepts(["message"], "denmark", personal);
    StreamNarrowAccepts(["message"], "denmark", streamed);
    DenmarkMatchesNarrow();
    MessageAppended(client.queue.State(), streamed.body);
    Deliver(client, ToOthello, None, client.queue.queueId);
    Deliver(client, toDenmark, None, client.queue.queueId);
    second := PollFromStart(client);
  }
}
