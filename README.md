# Zulip's per-client event queue, modelled in Dafny

This project models the event queue that Zulip's Tornado server keeps for each
long-poll client. `EventQueue` lives in `zerver.lib.event_queue`, which this
model does not include. Its behaviour is taken from the test module that
exercises it, `zerver/test_events.py`.

The model covers:

- the queue itself, `EventQueue`:
  - `push` stamps each event with the next id from one counter shared by all
    event types;
  - `contents` returns the live events in id order;
  - `empty` says whether the queue holds anything;
  - collapsing: a `pointer` or `restart` event replaces the live event of its
    type, and an `update_message_flags` event with `all` false merges into the
    live one with the same `flag` and `operation`. The merged entry gets the
    newer id and both message lists;
- the poll path of a client: the `last_event_id` filter (-1 means "from the
  start"), the event-type allow-list, the stream narrow, and the copy of a
  message event each queue receives (the sender's `local_message_id` goes only
  to the sender's own queue);
- the two registration defaults, `_default_all_public_streams` and
  `_default_narrow`;
- the test scenarios themselves, as methods whose postconditions are the
  tests' expected outputs.

Module layout:

- `events.dfy` (`Events`): events, collapse keys, and the merge of two flag
  updates.
- `queue_spec.dfy` (`QueueSpec`): the queue as a value. It holds `Push`,
  `Read`, runs of several steps, the invariant `Inv`, and the lemmas about
  them.
- `event_queue.dfy` (`EventQueues`): the `EventQueue` class. Each of its
  methods is proved to do what `QueueSpec` says.
- `delivery.dfy` (`Delivery`): the `last_event_id` filter, the narrow and
  type filters, per-queue message copies, and the `ClientDescriptor` class.
- `register_defaults.dfy` (`RegisterDefaults`): the two defaulting rules.
- `event_queue_tests.dfy` (`EventQueueTests`) and `get_events_tests.dfy`
  (`GetEventsTests`): the test scenarios.

The queue's state is:

- the live events, oldest first;
- a map from each open collapse key to the id of its live representative;
- the next id.

A push whose key is tracked cuts the representative out, merges it with the
new event, and appends the result with the new id. Two behaviours differ
from what a natural design would do. The model follows the test trace in
both cases:

- A `restart` does not end the pointer's collapse window. The pointer pushed
  before the first restart (id 8) is gone by the read at
  `zerver/test_events.py:448-457`.
- A `contents()` read closes every collapse window. The pointers pushed after
  the read at `zerver/test_events.py:448` form a new entry (id 22) and leave
  the returned entry (id 19) alone (`:458-476`). The model therefore clears
  the key map on each read.

## Model

| member | source | states |
|---|---|---|
| Events.KeyOf | zerver/test_events.py:424-538 | pointer and restart events collapse by type alone, a flag update with `all` false by its flag and operation, and every other event is kept verbatim (both directions) |
| Events.KeyOfByTypeName | zerver/test_events.py:424-538 | the collapse key follows from the `type` string alone (and a flag update's `all`); only a message event has type "message" |
| Events.Merge | zerver/test_events.py:478-522 | the merged entry keeps the newer event's type, key and fields; for a flag update its messages are the older list followed by the newer one; a pointer or restart is replaced outright |
| Events.MergedFlagMessages | zerver/test_events.py:492-499 | a merged flag update names exactly the messages of both pushes, with multiplicity |
| QueueSpec.Push | zerver/test_events.py:424-476 | a push consumes one id and puts its event last with that id; with nothing to supersede the event is appended as it is, otherwise the tail is the merge with the representative; a collapsible event becomes its key's representative and other events leave the key map alone |
| QueueSpec.Read | zerver/test_events.py:458-476 | a read keeps the live events and the counter, and afterwards no push supersedes anything |
| QueueSpec.PushPreservesInv | zerver/test_events.py:448-457 | a push keeps ids strictly increasing and below the counter, and keeps every tracked key naming a live event with that key |
| QueueSpec.PushKeepsOrder | zerver/test_events.py:448-457 | after a push the live ids still increase, and all are below the new counter |
| QueueSpec.PushKeepsTracking | zerver/test_events.py:436-457 | after a push every tracked key still names a live event of that key |
| QueueSpec.PushFreshId | zerver/test_events.py:436-457 | the counter moves on by one; the pushed event is last and carries the old counter; every other live event was already live |
| QueueSpec.PushKeepsAllButSuperseded | zerver/test_events.py:524-538 | exactly the superseded representative leaves; every other live event stays; the tail is the new (or merged) event; the length grows by one unless something was superseded |
| QueueSpec.PushCollapsesAt | zerver/test_events.py:424-434 | a collapsing push cuts the representative out of its position and appends the merge with the new id |
| QueueSpec.PushLeavesOtherKeys | zerver/test_events.py:436-457 | a push leaves every other key's representative in place, so a restart does not end the pointer's window |
| QueueSpec.ReadEndsCollapseWindow | zerver/test_events.py:458-476 | after a read, any push is appended to the unchanged live events |
| QueueSpec.RunPreservesInv | zerver/test_events.py:436-476 | any sequence of pushes and reads keeps the invariant |
| QueueSpec.RunCountsIds | zerver/test_events.py:436-457 | every push consumes one id, whether or not its event survives |
| QueueSpec.RetiredIdStaysRetired | zerver/test_events.py:436-457 | an id that has left the queue never comes back, and ids are never reused |
| QueueSpec.PointerRunCollapses | zerver/test_events.py:424-434 | N pointer pushes to a new queue leave one event: the N-th, with id N - 1 |
| EventQueues.EventQueue.constructor | zerver/test_events.py:413 | a new queue is empty, has no open windows, and starts its ids at 0 |
| EventQueues.EventQueue.Push | zerver/test_events.py:414-416 | the new state is `QueueSpec.Push` of the old one, and the invariant holds; the returned id is the old counter and the id of the last live event |
| EventQueues.EventQueue.IndexOf | zerver/test_events.py:424-434 | the scan finds the one live position carrying the tracked id |
| EventQueues.EventQueue.Contents | zerver/test_events.py:418-422 | returns the live events, ids increasing, and closes every collapse window |
| EventQueues.EventQueue.Empty | zerver/test_events.py:417 | true exactly when no event is live |
| Delivery.NewerThan | zerver/test_events.py:77-118 | returns exactly the events with id greater than `last_event_id`, and no more than the queue holds; that their order is kept is stated by Delivery.NewerThanAppend and Delivery.NewerThanSuffix |
| Delivery.NewerThanFromStart | zerver/test_events.py:77-85 | -1 (any negative id) selects every event |
| Delivery.NewerThanSuffix | zerver/test_events.py:107-118 | on increasing ids a poll returns a suffix, and every skipped event has id at most `last_event_id` |
| Delivery.SortedAllNewer | zerver/test_events.py:90-101 | when the oldest of increasing ids is newer than `last_event_id`, a poll returns everything |
| Delivery.NewerThanFromAll | zerver/test_events.py:90-101 | when every id is newer, a poll returns everything |
| Delivery.NewerThanNone | zerver/test_events.py:102-118 | once every id has been seen, a poll returns nothing |
| Delivery.NewerThanAppend | zerver/test_events.py:105-118 | polling two batches is polling each batch in turn |
| Delivery.NewerThanTwice | zerver/test_events.py:102-118 | polling a result again with a later id equals polling with that id, so nothing delivered comes back |
| Delivery.Lower | zerver/test_events.py:146-176 | ASCII lower case, character by character, length kept |
| Delivery.MatchesNarrow | zerver/test_events.py:146-176 | no narrow matches every message; a personal message matches only no narrow; a matching message goes to the narrow's stream, compared lower-cased |
| Delivery.Accepts | zerver/test_events.py:138-176 | a taken event has an allowed type; an event that is not a message is taken exactly when its type is allowed; a message taken under a narrow goes to a stream |
| Delivery.StreamNarrowAccepts | zerver/test_events.py:138-176 | under a one-stream narrow a message client takes exactly the messages to that stream, whatever the case, and never a personal message |
| Delivery.EmptyNarrowAccepts | zerver/test_events.py:59-75 | without a narrow the event-type allow-list alone decides |
| Delivery.MessageCopyFor | zerver/test_events.py:87-136 | each queue gets the same message; the local id appears exactly on the sender's own queue's copy |
| Delivery.ClientDescriptor.constructor | zerver/test_events.py:59-75 | a registered client has its filters and a new, empty queue |
| Delivery.ClientDescriptor.AddEvent | zerver/test_events.py:87-88 | an accepted event is pushed to the client's queue, and any other leaves it unchanged |
| Delivery.ClientDescriptor.GetEvents | zerver/test_events.py:77-85 | a non-blocking poll returns the live events newer than `last_event_id` and closes the collapse windows |
| RegisterDefaults.DefaultAllPublicStreams | zerver/test_events.py:545-579 | a passed value wins; with none, the user's stored default applies |
| RegisterDefaults.DefaultNarrow | zerver/test_events.py:587-609 | a non-empty narrow is kept; an empty one becomes a narrow to the user's default stream, or stays empty without one |
| RegisterDefaults.DefaultNarrowIdempotent | zerver/test_events.py:587-609 | defaulting twice is defaulting once |
| RegisterDefaults.DefaultNarrowSupported | zerver/test_events.py:599-603 | the defaulted narrow is a stream narrow whenever the passed one is |
| RegisterDefaults.DefaultStreamNarrowAccepts | zerver/test_events.py:599-603 | a client with a default stream and no narrow takes exactly the messages to that stream |
| EventQueueTests.OneEvent | zerver/test_events.py:412-422 | after one pointer push the queue is not empty and holds that event with id 0 |
| EventQueueTests.PushPointerRun | zerver/test_events.py:426-429 | pushing pointers 1 to 9 to a new queue leaves only pointer 9 with id 8 |
| EventQueueTests.EventCollapsing | zerver/test_events.py:424-434 | contents are the single event id 8, pointer 9, timestamp "9" |
| EventQueueTests.EventCollapsingAcrossRestart | zerver/test_events.py:436-476 | the first read is unknown (9), pointer 19 (19) and restart "2" (20); the second read adds pointer 22 (22) |
| EventQueueTests.PointerRunStep | zerver/test_events.py:426-429 | each push of the first pointer loop replaces the previous pointer |
| EventQueueTests.RestartAppended | zerver/test_events.py:441-442 | the unknown event and the first restart are appended with ids 9 and 10 |
| EventQueueTests.SecondLoopStep | zerver/test_events.py:443-446 | each pointer after the first restart replaces the live pointer, including the one from before the restart |
| EventQueueTests.PointerAcrossRestart | zerver/test_events.py:443-446 | pointer 11 replaces pointer 9 (id 8) across the restart |
| EventQueueTests.AfterRestartStep | zerver/test_events.py:443-446 | pointers 12 to 19 each replace the pointer before them |
| EventQueueTests.SecondRestartReplacesFirst | zerver/test_events.py:447-457 | restart "2" removes restart "1" and goes last with id 20 |
| EventQueueTests.AfterReadStep | zerver/test_events.py:458-461 | after the read, pointer 21 is appended and pointer 22 replaces it |
| EventQueueTests.FlagUpdatesMerge | zerver/test_events.py:478-522 | two updates of one flag and operation, messages 1 to 4 then 5 and 6, leave one entry with id 1 and messages 1 to 6 |
| EventQueueTests.FlagAddCollapsing | zerver/test_events.py:478-499 | two read/add flag updates become one entry, id 1, messages 1 to 6 |
| EventQueueTests.FlagRemoveCollapsing | zerver/test_events.py:501-522 | two collapsed/remove flag updates become one entry, id 1, messages 1 to 6 |
| EventQueueTests.CollapseEvent | zerver/test_events.py:524-538 | a pointer then an unknown event stay as two entries, ids 0 and 1, in push order |
| GetEventsTests.Deliver | zerver/test_events.py:87-88 | handing a client its copy of a message pushes it exactly when the client accepts it |
| GetEventsTests.MessageAppended | zerver/test_events.py:88-101 | a message event never collapses: it is appended with the next id |
| GetEventsTests.TakesMessages | zerver/test_events.py:59-75 | a client asking for message events with no narrow takes every message event |
| GetEventsTests.Send | zerver/test_events.py:87-88 | the sender's queue gets the message with its local id, and the recipient's without |
| GetEventsTests.PollFromStart | zerver/test_events.py:77-85 | a poll with -1 returns everything the queue holds |
| GetEventsTests.SendAndPoll | zerver/test_events.py:102-118 | after everything has been seen, a poll from the last id returns only the newer message |
| GetEventsTests.GetEvents | zerver/test_events.py:52-136 | an empty first poll; the sender sees each message once with its local id; the recipient holds both messages without one |
| GetEventsTests.DenmarkMatchesNarrow | zerver/test_events.py:146-176 | "Denmark" and "denmark" agree once lower-cased |
| GetEventsTests.GetEventsNarrow | zerver/test_events.py:138-176 | a client narrowed to "denmark" gets an empty first poll, then only the message to the stream "Denmark" |

## Left out

- `zerver/lib/event_queue.py` is not part of this model. The queue's behaviour is taken from the scenarios in `zerver/test_events.py:411-538`.
- Long-poll blocking and timeouts, the registry of client descriptors and its idle garbage collection. These are about concurrency and timing, and the tests assert none of them. Every poll is modelled as the non-blocking (`dont_block`) path.
- Pruning of events up to `last_event_id` from a queue on poll. The tests never observe it, so polls leave the live events in place.
- Request and response plumbing: `POSTRequestMock`, `get_events_backend`, JSON encoding, `assert_json_success`.
- The database-backed actions (`do_*`), `apply_events`, `fetch_initial_state_data`, the `EventsRegisterTest` replay checks and the `check_*` schema validators. Their code is not part of this model.
- Working out the recipients of a sent message. Sending is modelled as handing each client the copy meant for its queue.
- Narrow operators other than `stream`. A client must be registered with a stream narrow, and stream names are compared after ASCII lower-casing only (no Unicode case folding).
- Events of a type with no rule of their own (`Other`) keep their remaining fields as an opaque name-to-value map. Their type name cannot be one of the four types that have a rule: `pointer`, `restart`, `update_message_flags` or `message`.
- `local_message_id` is a float in the source. Here it is an opaque optional string.
- Events.KeyOf: a flag update with `all` true is kept verbatim, because the tests do not say how it collapses.
- Events.Merge: overlapping message lists are concatenated without removing duplicates, and the newer timestamp wins. The tests use disjoint lists and equal timestamps, so neither choice is fixed by them.
- The tests' `timestamp` values are `str(pointer_val)`. The scenarios build them with a decimal rendering of the pointer value (`EventQueueTests.NatToString`).
