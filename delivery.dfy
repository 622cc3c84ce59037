// The poll path of a client: which of its queue's events a poll returns
// (those newer than the last id the client saw), which dispatched events its
// queue accepts (event-type allow-list and stream narrow), and the copy of a
// message event each queue receives.

module Delivery {
  import opened Events
  import opened QueueSpec
  import opened EventQueues

  // ---------------------------------------------------------------------------
  // The last_event_id filter

  /** The events with id strictly greater than `lastEventId`, order kept. */
  function NewerThan(events: seq<Event>, lastEventId: int): (r: seq<Event>)
    ensures forall e :: e in r <==> e in events && e.id > lastEventId
    ensures |r| <= |events|
  {
    if events == [] then []
    else (if events[0].id > lastEventId then [events[0]] else []) + NewerThan(events[1..], lastEventId)
  }

  /** A `lastEventId` below every id (the client's -1) selects everything. */
  lemma {:induction false} NewerThanFromStart(events: seq<Event>, lastEventId: int)
    requires lastEventId < 0
    ensures NewerThan(events, lastEventId) == events
  {
    if events != [] {
      NewerThanFromStart(events[1..], lastEventId);
      assert [events[0]] + events[1..] == events;
    }
  }

  /**
   * On a queue's contents, whose ids increase, a poll returns a suffix: the
   * events it skips all have ids up to `lastEventId`.
   */
  lemma {:induction false} NewerThanSuffix(events: seq<Event>, lastEventId: int)
    requires Sorted(events)
    ensures var r := NewerThan(events, lastEventId);
            r == events[|events| - |r|..] &&
            forall j :: 0 <= j < |events| - |r| ==> events[j].id <= lastEventId
  {
    if events != [] {
      if events[0].id > lastEventId {
        SortedAllNewer(events, lastEventId);
      } else {
        var tail := events[1..];
        assert Sorted(tail);
        NewerThanSuffix(tail, lastEventId);
        var r := NewerThan(tail, lastEventId);
        assert tail[|tail| - |r|..] == events[|events| - |r|..];
        forall j | 0 <= j < |events| - |r| ensures events[j].id <= lastEventId {
          if j > 0 {
            assert events[j] == tail[j - 1];
          }
        }
      }
    }
  }

  /** When the oldest of increasing ids is newer than `lastEventId`, all are. */
  lemma SortedAllNewer(events: seq<Event>, lastEventId: int)
    requires Sorted(events) && events != [] && events[0].id > lastEventId
    ensures NewerThan(events, lastEventId) == events
  {
  }

  lemma {:induction false} NewerThanFromAll(events: seq<Event>, lastEventId: int)
    requires forall e :: e in events ==> e.id > lastEventId
    ensures NewerThan(events, lastEventId) == events
  {
    if events != [] {
      assert events[0] in events;
      NewerThanFromAll(events[1..], lastEventId);
      assert [events[0]] + events[1..] == events;
    }
  }

  /** Once the client has seen every id, a poll returns nothing. */
  lemma {:induction false} NewerThanNone(events: seq<Event>, lastEventId: int)
    requires forall e :: e in events ==> e.id <= lastEventId
    ensures NewerThan(events, lastEventId) == []
  {
    if events != [] {
      assert events[0] in events;
      NewerThanNone(events[1..], lastEventId);
    }
  }

  /** Polling events that arrived in two batches is polling each batch. */
  lemma {:induction false} NewerThanAppend(a: seq<Event>, b: seq<Event>, lastEventId: int)
    ensures NewerThan(a + b, lastEventId) == NewerThan(a, lastEventId) + NewerThan(b, lastEventId)
  {
    if a == [] {
      assert a + b == b;
    } else {
      var head := if a[0].id > lastEventId then [a[0]] else [];
      assert (a + b)[0] == a[0] && (a + b)[1..] == a[1..] + b;
      NewerThanAppend(a[1..], b, lastEventId);
      calc {
        NewerThan(a + b, lastEventId);
        head + NewerThan(a[1..] + b, lastEventId);
        head + (NewerThan(a[1..], lastEventId) + NewerThan(b, lastEventId));
        (head + NewerThan(a[1..], lastEventId)) + NewerThan(b, lastEventId);
      }
    }
  }

  /** Polling again with a later id selects from the earlier result: nothing delivered comes back. */
  lemma {:induction false} NewerThanTwice(events: seq<Event>, first: int, second: int)
    requires first <= second
    ensures NewerThan(NewerThan(events, first), second) == NewerThan(events, second)
  {
    if events != [] {
      NewerThanTwice(events[1..], first, second);
      var once := NewerThan(events, first);
      if events[0].id > first {
        assert once == [events[0]] + NewerThan(events[1..], first);
        assert once[0] == events[0] && once[1..] == NewerThan(events[1..], first);
      } else {
        assert once == NewerThan(events[1..], first);
      }
    }
  }

  // ---------------------------------------------------------------------------
  // Narrows and the event-type allow-list

  /** One `[operator, operand]` pair of a narrow, such as `["stream", "denmark"]`. */
  datatype NarrowTerm = NarrowTerm(operator: string, operand: string)

  type Narrow = seq<NarrowTerm>

  /** The narrows this model covers: stream narrows. */
  predicate SupportedNarrow(narrow: Narrow)
  {
    forall i :: 0 <= i < |narrow| ==> narrow[i].operator == "stream"
  }

  function LowerChar(c: char): char
  {
    if 'A' <= c <= 'Z' then (c as int + 32) as char else c
  }

  /** ASCII lower case; stream names in a narrow are compared without case. */
  function Lower(s: string): (r: string)
    ensures |r| == |s|
    ensures forall i :: 0 <= i < |s| ==> r[i] == LowerChar(s[i])
  {
    seq(|s|, i requires 0 <= i < |s| => LowerChar(s[i]))
  }

  /** A message matches a stream narrow when it goes to each named stream, ignoring case. */
  predicate MatchesNarrow(narrow: Narrow, m: Message): (b: bool)
    requires SupportedNarrow(narrow)
    ensures narrow == [] ==> b
    ensures m.recipient.Personal? ==> (b <==> narrow == [])
    ensures b && narrow != [] ==> Lower(m.recipient.displayRecipient) == Lower(narrow[0].operand)
  {
    narrow == [] ||
    (m.recipient.Stream? &&
     forall i :: 0 <= i < |narrow| ==> Lower(m.recipient.displayRecipient) == Lower(narrow[i].operand))
  }

  /**
   * Whether a client with these filters takes an event: its type is allowed
   * (an empty allow-list allows every type) and, for a message, the message
   * matches the narrow.
   */
  predicate Accepts(eventTypes: seq<string>, narrow: Narrow, d: EventData): (b: bool)
    requires SupportedNarrow(narrow)
    ensures b ==> eventTypes == [] || TypeName(d.body) in eventTypes
    ensures !d.body.MessageEvent? ==> (b <==> eventTypes == [] || TypeName(d.body) in eventTypes)
    ensures b && d.body.MessageEvent? && narrow != [] ==> d.body.message.recipient.Stream?
  {
    (eventTypes == [] || TypeName(d.body) in eventTypes) &&
    (d.body.MessageEvent? ==> MatchesNarrow(narrow, d.body.message))
  }

  /**
   * Under a narrow to one stream, a client that takes messages takes exactly
   * the messages to that stream, whatever the case of its name, and never a
   * personal message.
   */
  lemma StreamNarrowAccepts(eventTypes: seq<string>, stream: string, d: EventData)
    requires d.body.MessageEvent? && (eventTypes == [] || "message" in eventTypes)
    ensures Accepts(eventTypes, [NarrowTerm("stream", stream)], d) <==>
            d.body.message.recipient.Stream? &&
            Lower(d.body.message.recipient.displayRecipient) == Lower(stream)
  {
    var narrow := [NarrowTerm("stream", stream)];
    assert narrow[0].operand == stream;
  }

  /** Without a narrow, the allow-list alone decides. */
  lemma EmptyNarrowAccepts(eventTypes: seq<string>, d: EventData)
    ensures Accepts(eventTypes, [], d) <==> eventTypes == [] || TypeName(d.body) in eventTypes
  {
  }

  // ---------------------------------------------------------------------------
  // Per-queue copies of a message event

  /**
   * The message event the queue `queueId` receives for message `m` sent with
   * `localId` from the queue `senderQueueId`: the local id is echoed to the
   * sender's own queue only.
   */
  function MessageCopyFor(m: Message, localId: Option<string>, senderQueueId: Option<string>, queueId: string): (b: Body)
    ensures b.MessageEvent? && b.message == m
    ensures b.localMessageId.Some? <==> localId.Some? && senderQueueId == Some(queueId)
    ensures b.localMessageId.Some? ==> b.localMessageId == localId
  {
    MessageEvent(m, if senderQueueId == Some(queueId) then localId else None)
  }

  // ---------------------------------------------------------------------------
  // Client descriptors

  /** One registered long-poll client: its filters and its event queue. */
  class ClientDescriptor {
    const eventTypes: seq<string>
    const narrow: Narrow
    const queue: EventQueue

    ghost predicate Valid()
      reads this, queue
    {
      SupportedNarrow(narrow) && queue.Valid()
    }

    constructor (queueId: string, eventTypes: seq<string>, narrow: Narrow)
      requires SupportedNarrow(narrow)
      ensures Valid() && fresh(queue)
      ensures this.eventTypes == eventTypes && this.narrow == narrow
      ensures queue.queueId == queueId && queue.State() == Fresh
    {
      this.eventTypes := eventTypes;
      this.narrow := narrow;
      queue := new EventQueue(queueId);
    }

    /** register_event: an event the client accepts is pushed to its queue, any other is dropped. */
    method AddEvent(d: EventData)
      requires Valid()
      modifies queue
      ensures Valid()
      ensures queue.State() ==
              if Accepts(eventTypes, narrow, d) then QueueSpec.Push(old(queue.State()), d) else old(queue.State())
    {
      if Accepts(eventTypes, narrow, d) {
        var _ := queue.Push(d);
      }
    }

    /**
     * A poll that does not block: reads the queue's contents and returns the
     * events newer than `lastEventId` (-1 for all of them).
     */
    method GetEvents(lastEventId: int) returns (events: seq<Event>)
      requires Valid()
      modifies queue
      ensures Valid()
      ensures events == NewerThan(old(queue.live), lastEventId)
      ensures queue.State() == Read(old(queue.State()))
    {
      var all := queue.Contents();
      events := NewerThan(all, lastEventId);
    }
  }
}
