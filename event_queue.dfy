// The per-client event queue: an object whose `push` assigns ids and
// collapses events in place, and whose `contents` read closes the collapse
// windows.  Each method is proved to do what QueueSpec says.

module EventQueues {
  import opened Events
  import opened QueueSpec

  class EventQueue {
    /** The queue's identifier, chosen by whoever allocates it. */
    const queueId: string
    /** The live events, oldest first. */
    var live: seq<Event>
    /** For each open collapse window, the id of its live representative. */
    var tracked: map<CollapseKey, nat>
    /** The id the next push receives. */
    var nextEventId: nat

    function State(): QueueState
      reads this
    {
      QueueState(live, tracked, nextEventId)
    }

    ghost predicate Valid()
      reads this
    {
      Inv(State())
    }

    constructor (id: string)
      ensures Valid() && queueId == id
      ensures State() == Fresh
    {
      queueId := id;
      live := [];
      tracked := map[];
      nextEventId := 0;
    }

    /**
     * Stamps `d` with the next id and adds it, replacing the live event it
     * collapses with (found by a scan of the live events), if any.
     */
    method Push(d: EventData) returns (id: nat)
      requires Valid()
      modifies this
      ensures Valid()
      ensures State() == QueueSpec.Push(old(State()), d)
      ensures id == old(nextEventId) && live[|live| - 1].id == id
    {
      ghost var s := State();
      ghost var t := QueueSpec.Push(s, d);
      id := nextEventId;
      nextEventId := nextEventId + 1;
      var key := KeyOf(d);
      if key.Some? && key.value in tracked {
        var i := IndexOf(tracked[key.value]);
        var prev := live[i];
        assert t.live == live[..i] + live[i + 1..] + [Event(id, Merge(prev.data, d))] by {
          PushCollapsesAt(s, d, i);
        }
        live := live[..i] + live[i + 1..] + [Event(id, Merge(prev.data, d))];
        tracked := tracked[key.value := id];
      } else {
        live := live + [Event(id, d)];
        if key.Some? {
          tracked := tracked[key.value := id];
        }
      }
      assert State() == t;
      assert Valid() && live[|live| - 1].id == id by {
        PushPreservesInv(s, d);
        PushFreshId(s, d);
      }
    }

    /** The position of the live event with the given id, found by a scan from the oldest. */
    method IndexOf(target: nat) returns (i: nat)
      requires Valid() && Lookup(live, target).Some?
      ensures i < |live| && live[i].id == target
      ensures forall j :: 0 <= j < |live| && j != i ==> live[j].id != target
    {
      ghost var e := Lookup(live, target).value;
      i := 0;
      while live[i].id != target
        invariant 0 <= i < |live|
        invariant e in live[i..]
        decreases |live| - i
      {
        assert live[i] != e;
        assert live[i..] == [live[i]] + live[i + 1..];
        i := i + 1;
      }
    }

    /**
     * Returns the live events in id order and closes every collapse window:
     * later pushes do not merge into what was handed out.
     */
    method Contents() returns (events: seq<Event>)
      requires Valid()
      modifies this
      ensures Valid()
      ensures State() == Read(old(State()))
      ensures events == old(live) && Sorted(events)
    {
      events := live;
      tracked := map[];
    }

    /** Whether the queue holds no event. */
    method Empty() returns (b: bool)
      requires Valid()
      ensures b <==> live == []
      ensures b ==> tracked == map[]
    {
      b := |live| == 0;
    }
  }
}
