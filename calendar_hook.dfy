/**
 * The calendar component's state and its interaction handlers
 * (`useCalendarEvents`): the event and resource lists, the single draft
 * being created or edited, the edit-vs-create flag and the two dialog flags.
 *
 * Every handler runs to completion before the next one. The clock is the
 * parameter `now` (milliseconds); a toast is returned as a `Toast` value
 * and a host callback invocation as a `HostCall` value.
 */
module CalendarHook {
  import opened Wrappers
  import opened Types
  import opened EventList
  import opened EventIds

  /** Default duration of a new event: one hour in milliseconds. */
  const OneHour: int := 3600000
  /** Colour of an event whose draft names none. */
  const DefaultColor: string := "#3788d8"
  /** Text colour every event committed through the dialog gets. */
  const CommittedTextColor: string := "#ffffff"

  const MissingFieldsMessage: string := "Please fill in all required fields"
  const UpdatedMessage: string := "Event updated successfully"
  const AddedMessage: string := "Event added successfully"
  const DeletedMessage: string := "Event deleted successfully"

  /** A transient notification and its kind. */
  datatype Toast = Success(message: string) | Error(message: string)

  /**
   * The renderer's view of one event, as a click, drop or resize signal
   * carries it: `resourceIds` lists the ids of `getResources()`.
   */
  datatype RenderedEvent = RenderedEvent(
    id: string,
    title: string,
    start: int,
    end: int,
    resourceIds: seq<string>,
    backgroundColor: Option<string>,
    borderColor: Option<string>,
    textColor: Option<string>)

  /** JavaScript truthiness of an optional string: present and non-empty. */
  predicate Truthy(s: Option<string>)
  {
    s.Some? && s.value != ""
  }

  /** `getResources()[0]?.id || ''`: the first resource's id, or the empty string. */
  function FirstResourceId(ids: seq<string>): string
  {
    if |ids| > 0 then ids[0] else ""
  }

  /** The record drop and resize commit: the renderer's fields, colours as rendered. */
  function MovedEvent(ev: RenderedEvent): CalendarEvent
  {
    CalendarEvent(ev.id, FirstResourceId(ev.resourceIds), ev.title, ev.start, ev.end,
                  ev.backgroundColor, ev.borderColor, ev.textColor)
  }

  /** The draft an event click stages: a copy of the clicked event's fields. */
  function ClickDraft(ev: RenderedEvent): Draft
  {
    Draft(Some(ev.id), Some(FirstResourceId(ev.resourceIds)), Some(ev.title),
          Some(ev.start), Some(ev.end), ev.backgroundColor, None, None)
  }

  /** The draft a create entry point stages: one hour from `start`, no title, default colour. */
  function CreateDraft(start: int, resourceId: string): (d: Draft)
    ensures d.start == Some(start)
    ensures d.end.Some? && d.end.value == d.start.value + OneHour
    ensures d.borderColor == None && d.textColor == None
    ensures d.id == None && d.title == Some("") && d.resourceId == Some(resourceId)
    ensures d.backgroundColor == Some(DefaultColor)
  {
    Draft(None, Some(resourceId), Some(""), Some(start), Some(start + OneHour),
          Some(DefaultColor), None, None)
  }

  /** A draft may be saved when it exists and has a non-empty title and resource. */
  predicate Committable(d: Option<Draft>)
  {
    d.Some? && Truthy(d.value.title) && Truthy(d.value.resourceId)
  }

  /** The display colours every event committed through the dialog has. */
  predicate Normalised(e: CalendarEvent)
  {
    e.backgroundColor.Some? && e.backgroundColor.value != ""
    && e.borderColor == e.backgroundColor && e.textColor == Some(CommittedTextColor)
  }

  /**
   * The event a save commits: the draft's fields, a generated id when the
   * draft has none, `start`/`end` defaulting from the clock, and the colours
   * normalised.
   */
  function NewEvent(d: Draft, now: nat): (e: CalendarEvent)
    requires Truthy(d.title) && Truthy(d.resourceId)
    ensures e.id != "" && e.title != "" && e.resourceId != ""
    ensures Normalised(e)
    ensures Truthy(d.id) ==> e.id == d.id.value
    ensures !Truthy(d.id) ==> e.id == GeneratedId(now)
    ensures e.title == d.title.value && e.resourceId == d.resourceId.value
    ensures e.start == (if d.start.Some? then d.start.value else now)
    ensures e.end == (if d.end.Some? then d.end.value else now + OneHour)
    ensures e.backgroundColor == (if Truthy(d.backgroundColor) then d.backgroundColor else Some(DefaultColor))
  {
    var color := if Truthy(d.backgroundColor) then d.backgroundColor.value else DefaultColor;
    CalendarEvent(
      if Truthy(d.id) then d.id.value else GeneratedId(now),
      d.resourceId.value,
      d.title.value,
      if d.start.Some? then d.start.value else now,
      if d.end.Some? then d.end.value else now + OneHour,
      Some(color), Some(color), Some(CommittedTextColor))
  }

  /**
   * Opening a committed event and saving it without edits commits the same
   * event again, provided the renderer shows the event as it is stored.
   */
  lemma UneditedSaveRecommits(e: CalendarEvent, ev: RenderedEvent, now: nat)
    requires Normalised(e) && e.id != "" && e.title != "" && e.resourceId != ""
    requires ev.id == e.id && ev.title == e.title && ev.start == e.start && ev.end == e.end
    requires ev.resourceIds != [] && ev.resourceIds[0] == e.resourceId
    requires ev.backgroundColor == e.backgroundColor
    ensures Committable(Some(ClickDraft(ev)))
    ensures NewEvent(ClickDraft(ev), now) == e
  {
  }

  /** The id was generated from a clock reading earlier than `now`. */
  ghost predicate GeneratedBefore(id: string, now: nat)
  {
    exists t: nat :: t < now && id == GeneratedId(t)
  }

  /** Every id of the list was generated from a clock reading earlier than `now`. */
  ghost predicate IssuedBefore(es: seq<CalendarEvent>, now: nat)
  {
    forall i :: 0 <= i < |es| ==> GeneratedBefore(es[i].id, now)
  }

  /**
   * Uniqueness under normal use: when every stored id was generated at an
   * earlier instant, the id generated now is fresh, and creating an event
   * with it keeps the ids unique and all issued before the next instant.
   */
  lemma GeneratedCreateKeepsUnique(es: seq<CalendarEvent>, d: Draft, now: nat)
    requires UniqueIds(es) && IssuedBefore(es, now)
    requires Truthy(d.title) && Truthy(d.resourceId) && !Truthy(d.id)
    ensures Absent(es, GeneratedId(now))
    ensures UniqueIds(es + [NewEvent(d, now)])
    ensures IssuedBefore(es + [NewEvent(d, now)], now + 1)
  {
    forall i | 0 <= i < |es|
      ensures es[i].id != GeneratedId(now)
    {
      assert GeneratedBefore(es[i].id, now);
      var t: nat :| t < now && es[i].id == GeneratedId(t);
      if es[i].id == GeneratedId(now) {
        GeneratedIdInjective(t, now);
      }
    }
    AppendKeepsUnique(es, NewEvent(d, now));
    var r := es + [NewEvent(d, now)];
    forall i | 0 <= i < |r|
      ensures GeneratedBefore(r[i].id, now + 1)
    {
      if i < |es| {
        assert GeneratedBefore(es[i].id, now);
        var t: nat :| t < now && es[i].id == GeneratedId(t);
        assert r[i] == es[i];
        assert t < now + 1 && r[i].id == GeneratedId(t);
      } else {
        assert r[i].id == GeneratedId(now);
        assert now < now + 1;
      }
    }
  }

  /** The state `useCalendarEvents` keeps, with its handlers. */
  class Calendar {
    var resources: seq<Resource>
    var events: seq<CalendarEvent>
    /** The draft; `None` is `null`. */
    var currentEvent: Option<Draft>
    var isEditing: bool
    var showEventModal: bool
    var showDeleteModal: bool
    /** Whether the host supplied each optional callback. */
    const hasOnEventChange: bool
    const hasOnEventAdd: bool
    const hasOnEventDelete: bool

    /** Initial state: the host's lists, no draft, create mode, both dialogs closed. */
    constructor (initialResources: seq<Resource>, initialEvents: seq<CalendarEvent>,
                 hasOnEventChange: bool, hasOnEventAdd: bool, hasOnEventDelete: bool)
      ensures resources == initialResources && events == initialEvents
      ensures currentEvent == None && !isEditing && !showEventModal && !showDeleteModal
      ensures this.hasOnEventChange == hasOnEventChange && this.hasOnEventAdd == hasOnEventAdd
      ensures this.hasOnEventDelete == hasOnEventDelete
    {
      resources := initialResources;
      events := initialEvents;
      currentEvent := None;
      isEditing := false;
      showEventModal := false;
      showDeleteModal := false;
      this.hasOnEventChange := hasOnEventChange;
      this.hasOnEventAdd := hasOnEventAdd;
      this.hasOnEventDelete := hasOnEventDelete;
    }

    /** The host supplied a new resource array: it replaces the list wholesale. */
    method SyncResources(initialResources: seq<Resource>)
      modifies this
      ensures resources == initialResources
      ensures events == old(events) && currentEvent == old(currentEvent) && isEditing == old(isEditing)
      ensures showEventModal == old(showEventModal) && showDeleteModal == old(showDeleteModal)
    {
      resources := initialResources;
    }

    /**
     * The host supplied a new event array: it replaces the list wholesale;
     * an open draft is left as it is.
     */
    method SyncEvents(initialEvents: seq<CalendarEvent>)
      modifies this
      ensures events == initialEvents
      ensures resources == old(resources) && currentEvent == old(currentEvent) && isEditing == old(isEditing)
      ensures showEventModal == old(showEventModal) && showDeleteModal == old(showDeleteModal)
    {
      events := initialEvents;
    }

    /**
     * Click on an empty slot at `date` in the lane of `resource` (if any):
     * a create draft one hour long, whatever draft there was before.
     */
    method HandleDateClick(date: int, resource: Option<Resource>)
      modifies this
      ensures currentEvent == Some(CreateDraft(date, if resource.Some? then resource.value.id else ""))
      ensures !isEditing && showEventModal
      ensures events == old(events) && resources == old(resources)
      ensures showDeleteModal == old(showDeleteModal)
    {
      var resourceId := if resource.Some? then resource.value.id else "";
      currentEvent := Some(CreateDraft(date, resourceId));
      isEditing := false;
      showEventModal := true;
    }

    /** Click on an event: an edit draft copying the event's fields. */
    method HandleEventClick(ev: RenderedEvent)
      modifies this
      ensures currentEvent == Some(ClickDraft(ev))
      ensures isEditing && showEventModal
      ensures events == old(events) && resources == old(resources)
      ensures showDeleteModal == old(showDeleteModal)
    {
      currentEvent := Some(ClickDraft(ev));
      isEditing := true;
      showEventModal := true;
    }

    /**
     * An event was dragged to a new place: the stored event with its id is
     * replaced by the renderer's record (a no-op when none has it), the host
     * hears of the change, and a success toast is shown.
     */
    method HandleEventDrop(ev: RenderedEvent) returns (call: Option<HostCall>, toast: Toast)
      modifies this
      ensures events == ReplaceById(old(events), MovedEvent(ev))
      ensures call == (if hasOnEventChange then Some(EventChange(MovedEvent(ev))) else None)
      ensures call.Some? ==> events == Apply(old(events), call.value)
      ensures toast == Success(UpdatedMessage)
      ensures resources == old(resources) && currentEvent == old(currentEvent) && isEditing == old(isEditing)
      ensures showEventModal == old(showEventModal) && showDeleteModal == old(showDeleteModal)
    {
      var updated := MovedEvent(ev);
      events := ReplaceById(events, updated);
      call := if hasOnEventChange then Some(EventChange(updated)) else None;
      toast := Success(UpdatedMessage);
    }

    /** An event was resized: the same update as a drop. */
    method HandleEventResize(ev: RenderedEvent) returns (call: Option<HostCall>, toast: Toast)
      modifies this
      ensures events == ReplaceById(old(events), MovedEvent(ev))
      ensures call == (if hasOnEventChange then Some(EventChange(MovedEvent(ev))) else None)
      ensures call.Some? ==> events == Apply(old(events), call.value)
      ensures toast == Success(UpdatedMessage)
      ensures resources == old(resources) && currentEvent == old(currentEvent) && isEditing == old(isEditing)
      ensures showEventModal == old(showEventModal) && showDeleteModal == old(showDeleteModal)
    {
      var updated := MovedEvent(ev);
      events := ReplaceById(events, updated);
      call := if hasOnEventChange then Some(EventChange(updated)) else None;
      toast := Success(UpdatedMessage);
    }

    /**
     * The dialog's Save/Create button. A draft that is missing, untitled or
     * without a resource changes nothing and yields an error toast. Otherwise
     * the committed event replaces its id (edit mode) or is appended (create
     * mode), the matching host callback fires, and the dialog closes with
     * the draft cleared.
     */
    method HandleSaveEvent(now: nat) returns (call: Option<HostCall>, toast: Toast)
      modifies this
      ensures !Committable(old(currentEvent)) ==>
        events == old(events) && currentEvent == old(currentEvent)
        && showEventModal == old(showEventModal) && call == None && toast == Error(MissingFieldsMessage)
      ensures Committable(old(currentEvent)) ==>
        var e := NewEvent(old(currentEvent).value, now);
        currentEvent == None && !showEventModal
        && (old(isEditing) ==>
              events == ReplaceById(old(events), e)
              && call == (if hasOnEventChange then Some(EventChange(e)) else None)
              && toast == Success(UpdatedMessage))
        && (!old(isEditing) ==>
              events == old(events) + [e]
              && call == (if hasOnEventAdd then Some(EventAdd(e)) else None)
              && toast == Success(AddedMessage))
      ensures call.Some? ==> events == Apply(old(events), call.value)
      ensures resources == old(resources) && isEditing == old(isEditing)
      ensures showDeleteModal == old(showDeleteModal)
    {
      if !Committable(currentEvent) {
        call := None;
        toast := Error(MissingFieldsMessage);
        return;
      }
      var e := NewEvent(currentEvent.value, now);
      if isEditing {
        events := ReplaceById(events, e);
        call := if hasOnEventChange then Some(EventChange(e)) else None;
        toast := Success(UpdatedMessage);
      } else {
        events := events + [e];
        call := if hasOnEventAdd then Some(EventAdd(e)) else None;
        toast := Success(AddedMessage);
      }
      showEventModal := false;
      currentEvent := None;
    }

    /**
     * The delete confirmation's Confirm button. With a draft id every event
     * with that id goes and the host hears of it; without one nothing is
     * removed and nothing is said. Either way both dialogs close and the
     * draft is cleared.
     */
    method ConfirmDeleteEvent() returns (call: Option<HostCall>, toast: Option<Toast>)
      modifies this
      ensures var d := old(currentEvent);
        if d.Some? && Truthy(d.value.id) then
          events == RemoveById(old(events), d.value.id.value)
          && call == (if hasOnEventDelete then Some(EventDelete(d.value.id.value)) else None)
          && toast == Some(Success(DeletedMessage))
        else
          events == old(events) && call == None && toast == None
      ensures call.Some? ==> events == Apply(old(events), call.value)
      ensures currentEvent == None && !showEventModal && !showDeleteModal
      ensures resources == old(resources) && isEditing == old(isEditing)
    {
      call, toast := None, None;
      if currentEvent.Some? && Truthy(currentEvent.value.id) {
        var id := currentEvent.value.id.value;
        events := RemoveById(events, id);
        call := if hasOnEventDelete then Some(EventDelete(id)) else None;
        toast := Some(Success(DeletedMessage));
      }
      showDeleteModal := false;
      showEventModal := false;
      currentEvent := None;
    }

    /**
     * The toolbar's Add Event button: a create draft starting now, on the
     * first resource's lane (or none when there are no resources).
     */
    method HandleAddEventClick(now: nat)
      modifies this
      ensures currentEvent == Some(CreateDraft(now, if |resources| > 0 then resources[0].id else ""))
      ensures !isEditing && showEventModal
      ensures events == old(events) && resources == old(resources)
      ensures showDeleteModal == old(showDeleteModal)
    {
      var resourceId := if |resources| > 0 then resources[0].id else "";
      currentEvent := Some(CreateDraft(now, resourceId));
      isEditing := false;
      showEventModal := true;
    }

    /** The exported draft setter, through which the dialog's field edits arrive. */
    method SetCurrentEvent(d: Option<Draft>)
      modifies this
      ensures currentEvent == d
      ensures events == old(events) && resources == old(resources) && isEditing == old(isEditing)
      ensures showEventModal == old(showEventModal) && showDeleteModal == old(showDeleteModal)
    {
      currentEvent := d;
    }

    /** The exported event-dialog setter: Cancel closes it without clearing the draft. */
    method SetShowEventModal(open: bool)
      modifies this
      ensures showEventModal == open
      ensures events == old(events) && resources == old(resources) && isEditing == old(isEditing)
      ensures currentEvent == old(currentEvent) && showDeleteModal == old(showDeleteModal)
    {
      showEventModal := open;
    }

    /** The exported delete-dialog setter: Delete opens it, Cancel closes it. */
    method SetShowDeleteModal(open: bool)
      modifies this
      ensures showDeleteModal == open
      ensures events == old(events) && resources == old(resources) && isEditing == old(isEditing)
      ensures currentEvent == old(currentEvent) && showEventModal == old(showEventModal)
    {
      showDeleteModal := open;
    }
  }
}
