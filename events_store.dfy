/**
 * The events collection store (src/store/eventsStore.ts): one list of events,
 * empty at first and replaced wholesale by `setEvents`.
 */
module EventsStore {
  import opened Types

  class Store {
    var events: seq<Event>

    /** The store starts with no events. */
    constructor ()
      ensures events == []
    {
      events := [];
    }

    /** `setEvents(newEvents)`: the list is replaced by `newEvents`. */
    method SetEvents(newEvents: seq<Event>)
      modifies this
      ensures events == newEvents
    {
      events := newEvents;
    }
  }

  /** A fresh store holds no events, and after `setEvents(l)` it holds exactly `l`. */
  method SetEventsOnFreshStore(l: seq<Event>) returns (initial: seq<Event>, after: seq<Event>)
    ensures initial == [] && after == l
  {
    var store := new Store();
    initial := store.events;
    store.SetEvents(l);
    after := store.events;
  }

  /** `setEvents` is idempotent: on any store, a second call with the same list
      leaves what the first left. */
  method SetEventsIdempotent(store: Store, l: seq<Event>) returns (once: seq<Event>, twice: seq<Event>)
    modifies store
    ensures once == l && twice == once && store.events == l
  {
    store.SetEvents(l);
    once := store.events;
    store.SetEvents(l);
    twice := store.events;
  }

  /** The last write wins: on any store, `setEvents(a)` then `setEvents(b)` leaves `b`. */
  method SetEventsLastWriteWins(store: Store, a: seq<Event>, b: seq<Event>) returns (result: seq<Event>)
    modifies store
    ensures result == b && store.events == b
  {
    store.SetEvents(a);
    store.SetEvents(b);
    result := store.events;
  }
}
