// Event records handed to a per-client event queue, and the type-specific
// rules that decide which of them collapse and how two of them merge.

module Events {

  datatype Option<+T> = None | Some(value: T)

  /** The `operation` field of an `update_message_flags` event. */
  datatype FlagOperation = Add | Remove

  /** Where a message goes: a personal message to one user, or a stream. */
  datatype Recipient = Personal(email: string) | Stream(displayRecipient: string)

  datatype Message = Message(senderEmail: string, recipient: Recipient, content: string)

  /**
   * The `type` of an event that has no rule of its own: any string but the
   * four types the queue and the narrow treat specially.
   */
  type OtherTypeName = t: string | t != "pointer" && t != "restart" && t != "update_message_flags" && t != "message"
    witness "unknown"

  /**
   * The type-specific fields of an event; the variant is the event's `type`.
   * `Other` stands for every type that has no rule of its own (the tests use
   * `unknown`), its remaining fields kept as opaque name/value pairs.  A
   * message event may carry the sender's `local_message_id`, an opaque token
   * here.
   */
  datatype Body =
    | Pointer(pointer: int)
    | Restart(serverGeneration: string)
    | UpdateMessageFlags(flag: string, operation: FlagOperation, all: bool, messages: seq<int>)
    | MessageEvent(message: Message, localMessageId: Option<string>)
    | Other(typeName: OtherTypeName, fields: map<string, string>)

  /** An event as pushed: everything but the `id`. */
  datatype EventData = EventData(body: Body, timestamp: Option<string>)

  /** An event as stored in a queue: the pushed record with its `id` added. */
  datatype Event = Event(id: nat, data: EventData)

  /** The compaction key of a collapsible event. */
  datatype CollapseKey = PointerKey | RestartKey | FlagsKey(flag: string, operation: FlagOperation)

  /** The `type` string of an event. */
  function TypeName(b: Body): string
  {
    match b
    case Pointer(_) => "pointer"
    case Restart(_) => "restart"
    case UpdateMessageFlags(_, _, _, _) => "update_message_flags"
    case MessageEvent(_, _) => "message"
    case Other(t, _) => t
  }

  /**
   * The key under which an event collapses, or None when the event is kept
   * verbatim: pointer and restart events collapse by type alone, flag updates
   * by flag and operation, and only when they do not apply to all messages.
   */
  function KeyOf(d: EventData): (k: Option<CollapseKey>)
    ensures k.Some? <==> d.body.Pointer? || d.body.Restart? || (d.body.UpdateMessageFlags? && !d.body.all)
    ensures k == Some(PointerKey) <==> d.body.Pointer?
    ensures k == Some(RestartKey) <==> d.body.Restart?
    ensures k.Some? && k.value.FlagsKey? ==>
              k.value.flag == d.body.flag && k.value.operation == d.body.operation
  {
    match d.body
    case Pointer(_) => Some(PointerKey)
    case Restart(_) => Some(RestartKey)
    case UpdateMessageFlags(f, op, all, _) => if all then None else Some(FlagsKey(f, op))
    case MessageEvent(_, _) => None
    case Other(_, _) => None
  }

  /** The collapse key of an event follows from its `type` string alone, and the flag update's `all`. */
  lemma KeyOfByTypeName(d: EventData)
    ensures KeyOf(d) == Some(PointerKey) <==> TypeName(d.body) == "pointer"
    ensures KeyOf(d) == Some(RestartKey) <==> TypeName(d.body) == "restart"
    ensures (KeyOf(d).Some? && KeyOf(d).value.FlagsKey?) <==> TypeName(d.body) == "update_message_flags" && !d.body.all
    ensures TypeName(d.body) == "message" <==> d.body.MessageEvent?
  {
  }

  /**
   * The event that replaces a live representative `prev` when `next` is pushed
   * under the same key.  Pointer and restart events are replaced outright; a
   * flag update keeps the fields of `next` and the messages of both pushes,
   * older ones first.
   */
  function Merge(prev: EventData, next: EventData): (r: EventData)
    ensures KeyOf(r) == KeyOf(next) && TypeName(r.body) == TypeName(next.body)
    ensures r.timestamp == next.timestamp
    ensures !next.body.UpdateMessageFlags? ==> r == next
    ensures next.body.UpdateMessageFlags? && prev.body.UpdateMessageFlags? ==>
              r.body == next.body.(messages := prev.body.messages + next.body.messages)
  {
    match (prev.body, next.body)
    case (UpdateMessageFlags(_, _, _, older), UpdateMessageFlags(f, op, all, newer)) =>
      EventData(UpdateMessageFlags(f, op, all, older + newer), next.timestamp)
    case _ => next
  }

  /** A merged flag update names every message of both pushes, and no other. */
  lemma MergedFlagMessages(prev: EventData, next: EventData)
    requires prev.body.UpdateMessageFlags? && next.body.UpdateMessageFlags?
    ensures var r := Merge(prev, next);
            multiset(r.body.messages) == multiset(prev.body.messages) + multiset(next.body.messages) &&
            (forall m :: m in r.body.messages <==> m in prev.body.messages || m in next.body.messages)
  {
  }
}
