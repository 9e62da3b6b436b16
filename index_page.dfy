/**
 * The host page (`Index`): it owns its own copies of the resources and
 * events, hands them to the calendar, and applies each callback the
 * calendar fires to its event list with the same list operations.
 */
module IndexPage {
  import opened Types
  import opened EventList

  class Index {
    /** The page's resources: it never sets them after the first render. */
    const resources: seq<Resource>
    var events: seq<CalendarEvent>

    constructor (sampleResources: seq<Resource>, sampleEvents: seq<CalendarEvent>)
      ensures resources == sampleResources && events == sampleEvents
    {
      resources := sampleResources;
      events := sampleEvents;
    }

    /** `onEventChange`: the event with the updated event's id is replaced. */
    method HandleEventChange(updatedEvent: CalendarEvent)
      modifies this
      ensures events == ReplaceById(old(events), updatedEvent)
    {
      events := ReplaceById(events, updatedEvent);
    }

    /** `onEventAdd`: the new event goes last. */
    method HandleEventAdd(newEvent: CalendarEvent)
      modifies this
      ensures events == old(events) + [newEvent]
      ensures |events| == |old(events)| + 1 && events[..|old(events)|] == old(events)
    {
      events := events + [newEvent];
    }

    /** `onEventDelete`: every event with the id goes. */
    method HandleEventDelete(eventId: string)
      modifies this
      ensures events == RemoveById(old(events), eventId)
      ensures Absent(events, eventId)
    {
      events := RemoveById(events, eventId);
    }
  }
}
