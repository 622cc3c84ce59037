// Defaults applied when a client registers a queue: whether it follows all
// public streams, and which narrow it gets when it asks for none.  The user's
// stored defaults are a parameter; reading them from storage is not modelled.

module RegisterDefaults {
  import opened Events
  import opened Delivery

  /** The registration defaults kept on a user's profile. */
  datatype UserDefaults = UserDefaults(defaultAllPublicStreams: bool, defaultEventsRegisterStream: Option<string>)

  /** An explicit choice wins; with none, the user's stored default applies. */
  function DefaultAllPublicStreams(user: UserDefaults, passed: Option<bool>): (r: bool)
    ensures passed.Some? ==> r == passed.value
    ensures passed.None? ==> r == user.defaultAllPublicStreams
  {
    match passed
    case Some(b) => b
    case None => user.defaultAllPublicStreams
  }

  /**
   * A non-empty narrow is kept; an empty one becomes a narrow to the user's
   * default stream when the user has one, and stays empty otherwise.
   */
  function DefaultNarrow(user: UserDefaults, narrow: Narrow): (r: Narrow)
    ensures narrow != [] ==> r == narrow
    ensures narrow == [] && user.defaultEventsRegisterStream.None? ==> r == []
    ensures narrow == [] && user.defaultEventsRegisterStream.Some? ==>
              r == [NarrowTerm("stream", user.defaultEventsRegisterStream.value)]
  {
    if narrow == [] && user.defaultEventsRegisterStream.Some? then
      [NarrowTerm("stream", user.defaultEventsRegisterStream.value)]
    else
      narrow
  }

  /** Defaulting twice is defaulting once. */
  lemma DefaultNarrowIdempotent(user: UserDefaults, narrow: Narrow)
    ensures DefaultNarrow(user, DefaultNarrow(user, narrow)) == DefaultNarrow(user, narrow)
  {
  }

  /** The defaulted narrow can always be registered when the passed one can. */
  lemma DefaultNarrowSupported(user: UserDefaults, narrow: Narrow)
    requires SupportedNarrow(narrow)
    ensures SupportedNarrow(DefaultNarrow(user, narrow))
  {
  }

  /**
   * A message client that passes no narrow but has a default stream receives
   * exactly the messages to that stream.
   */
  lemma DefaultStreamNarrowAccepts(user: UserDefaults, eventTypes: seq<string>, d: EventData)
    requires user.defaultEventsRegisterStream.Some?
    requires d.body.MessageEvent? && (eventTypes == [] || "message" in eventTypes)
    ensures SupportedNarrow(DefaultNarrow(user, []))
    ensures Accepts(eventTypes, DefaultNarrow(user, []), d) <==>
            d.body.message.recipient.Stream? &&
            Lower(d.body.message.recipient.displayRecipient) == Lower(user.defaultEventsRegisterStream.value)
  {
    StreamNarrowAccepts(eventTypes, user.defaultEventsRegisterStream.value, d);
  }
}
