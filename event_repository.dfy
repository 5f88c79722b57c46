/** The event store the services talk to, reduced to a map from event id to the stored field
    values. */
module Persistence {
  import opened Wrappers
  import opened Entities

  /** Every stored event is stored under its own id: a load by id filters on `Id == id`, and the
      database assigns each event one id. */
  predicate KeyedById(events: map<int, EventData>)
  {
    forall k :: k in events ==> events[k].id == k
  }

  class EventRepository {
    var events: map<int, EventData>

    predicate Valid()
      reads this
    {
      KeyedById(events)
    }

    constructor (events: map<int, EventData>)
      requires KeyedById(events)
      ensures this.events == events && Valid()
    {
      this.events := events;
    }

    /** `GetEventByIdAsync`: a new object with the stored values, or null. */
    method GetEventById(id: int) returns (e: Option<Event>)
      ensures e.Some? <==> id in events
      ensures e.Some? ==> fresh(e.value) && e.value.Snapshot() == events[id]
      ensures e.Some? && Valid() ==> e.value.id == id
    {
      if id in events {
        var loaded := new Event.FromData(events[id]);
        e := Some(loaded);
      } else {
        e := None;
      }
    }

    /** `CreateEventAsync` and `UpdateEventAsync`: the event's current values are stored under
        its id. */
    method Save(e: Event)
      modifies this
      ensures events == old(events)[e.id := e.Snapshot()]
      ensures old(Valid()) ==> Valid()
    {
      events := events[e.id := e.Snapshot()];
    }
  }
}
