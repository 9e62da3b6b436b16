/**
 * The entity shapes of the calendar: resources (timeline lanes), committed
 * events and the partial event the editor stages (the draft).
 *
 * Instants are integer milliseconds; parsing and formatting of ISO-8601
 * strings happens outside the model.
 */
module Types {
  import opened Wrappers

  /** A schedulable lane of the timeline. */
  datatype Resource = Resource(id: string, title: string)

  /** A committed event as the store and the host hold it. */
  datatype CalendarEvent = CalendarEvent(
    id: string,
    resourceId: string,
    title: string,
    start: int,
    end: int,
    backgroundColor: Option<string>,
    borderColor: Option<string>,
    textColor: Option<string>)

  /** A partial event (every field may be absent): the event being created or edited. */
  datatype Draft = Draft(
    id: Option<string>,
    resourceId: Option<string>,
    title: Option<string>,
    start: Option<int>,
    end: Option<int>,
    backgroundColor: Option<string>,
    borderColor: Option<string>,
    textColor: Option<string>)

  /**
   * One invocation of the host's optional callbacks `onEventChange`,
   * `onEventAdd` and `onEventDelete` (the last carries only the id).
   */
  datatype HostCall =
    | EventChange(event: CalendarEvent)
    | EventAdd(event: CalendarEvent)
    | EventDelete(eventId: string)

  /** The draft with nothing filled in. */
  const EmptyDraft: Draft := Draft(None, None, None, None, None, None, None, None)

  /** No two events of the list share an id. */
  predicate UniqueIds(es: seq<CalendarEvent>)
  {
    forall i, j :: 0 <= i < j < |es| ==> es[i].id != es[j].id
  }

  /** No event of the list carries the given id. */
  predicate Absent(es: seq<CalendarEvent>, id: string)
  {
    forall i :: 0 <= i < |es| ==> es[i].id != id
  }
}
