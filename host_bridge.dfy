/**
 * The wiring between the host page and the calendar: the page passes its
 * three handlers as the calendar's callbacks and its lists as the
 * calendar's initial data, and the calendar takes up every new list the
 * page hands it.
 */
module HostBridge {
  import opened Wrappers
  import opened Types
  import opened EventList
  import opened EventIds
  import opened CalendarHook
  import opened DraftEdits
  import opened IndexPage

  /** Hands one callback invocation (if any) to the page's matching handler. */
  method Deliver(host: Index, call: Option<HostCall>)
    modifies host
    ensures host.events == if call.Some? then Apply(old(host.events), call.value) else old(host.events)
  {
    if call.Some? {
      match call.value
      case EventChange(e) => host.HandleEventChange(e);
      case EventAdd(e) => host.HandleEventAdd(e);
      case EventDelete(id) => host.HandleEventDelete(id);
    }
  }

  /**
   * With `onEventChange` supplied, a calendar and a page that hold the same
   * events still hold the same events after a drop: the page's reducer
   * redoes the calendar's list update.
   */
  method MoveKeepsHostInStep(cal: Calendar, host: Index, ev: RenderedEvent)
    requires cal.hasOnEventChange && cal.events == host.events
    modifies cal, host
    ensures cal.events == host.events == ReplaceById(old(host.events), MovedEvent(ev))
  {
    var call, _ := cal.HandleEventDrop(ev);
    Deliver(host, call);
  }

  /** The same for a resize. */
  method ResizeKeepsHostInStep(cal: Calendar, host: Index, ev: RenderedEvent)
    requires cal.hasOnEventChange && cal.events == host.events
    modifies cal, host
    ensures cal.events == host.events == ReplaceById(old(host.events), MovedEvent(ev))
  {
    var call, _ := cal.HandleEventResize(ev);
    Deliver(host, call);
  }

  /**
   * With both callbacks supplied, the same for a save in either mode; a rejected save changes neither
   * list.
   */
  method SaveKeepsHostInStep(cal: Calendar, host: Index, now: nat)
    requires cal.hasOnEventChange && cal.hasOnEventAdd && cal.events == host.events
    modifies cal, host
    ensures cal.events == host.events
    ensures !Committable(old(cal.currentEvent)) ==> host.events == old(host.events)
    ensures Committable(old(cal.currentEvent)) ==>
      var e := NewEvent(old(cal.currentEvent).value, now);
      host.events == (if old(cal.isEditing) then ReplaceById(old(host.events), e)
                      else old(host.events) + [e])
    ensures Committable(old(cal.currentEvent)) ==>
      |host.events| == |old(host.events)| + (if old(cal.isEditing) then 0 else 1)
  {
    var call, _ := cal.HandleSaveEvent(now);
    Deliver(host, call);
  }

  /** The same for a confirmed delete. */
  method DeleteKeepsHostInStep(cal: Calendar, host: Index)
    requires cal.hasOnEventDelete && cal.events == host.events
    modifies cal, host
    ensures cal.events == host.events
    ensures old(cal.currentEvent).Some? && Truthy(old(cal.currentEvent).value.id) ==>
      host.events == RemoveById(old(host.events), old(cal.currentEvent).value.id.value)
    ensures old(cal.currentEvent).Some? && Truthy(old(cal.currentEvent).value.id) ==>
      Absent(host.events, old(cal.currentEvent).value.id.value)
    ensures !(old(cal.currentEvent).Some? && Truthy(old(cal.currentEvent).value.id)) ==>
      host.events == old(host.events)
  {
    var call, _ := cal.ConfirmDeleteEvent();
    Deliver(host, call);
  }

  /**
   * Create, reject, move and delete one event on a two-lane timeline,
   * with the instants of 2024-01-01 10:00, 11:00, 14:00 and 15:00 UTC.
   */
  method EventLifecycleScenario(now: nat)
  {
    var t10, t11, t14, t15 := 1704103200000, 1704106800000, 1704117600000, 1704121200000;
    var lane1, lane2 := Resource("resource-1", "Room 1"), Resource("resource-2", "Room 2");
    var host := new Index([lane1, lane2], []);
    var cal := new Calendar(host.resources, host.events, true, true, true);

    // A click on the empty slot at 10:00 in the first lane.
    cal.HandleDateClick(t10, Some(lane1));
    assert cal.currentEvent == Some(Draft(None, Some("resource-1"), Some(""), Some(t10), Some(t11),
                                          Some("#3788d8"), None, None));
    assert !cal.isEditing && cal.showEventModal;

    // Saving with the empty title is refused and changes nothing.
    var call, toast := cal.HandleSaveEvent(now);
    assert call == None && toast == Error(MissingFieldsMessage);
    assert cal.events == [] && cal.showEventModal && cal.currentEvent.Some?;

    // Titled "Standup", the draft is committed with a generated id.
    cal.SetCurrentEvent(Some(WithTitle(cal.currentEvent, "Standup")));
    call, toast := cal.HandleSaveEvent(now);
    var standup := CalendarEvent(GeneratedId(now), "resource-1", "Standup", t10, t11,
                                 Some("#3788d8"), Some("#3788d8"), Some("#ffffff"));
    assert cal.events == [standup] && call == Some(EventAdd(standup));
    assert cal.currentEvent == None && !cal.showEventModal;
    Deliver(host, call);
    cal.SyncEvents(host.events);
    assert cal.events == host.events == [standup];

    // Dragged to the second lane, 14:00 to 15:00: only lane and times change.
    var dragged := RenderedEvent(standup.id, "Standup", t14, t15, ["resource-2"],
                                 standup.backgroundColor, standup.borderColor, standup.textColor);
    call, toast := cal.HandleEventDrop(dragged);
    assert cal.events == [standup.(resourceId := "resource-2", start := t14, end := t15)];
    assert call == Some(EventChange(cal.events[0])) && !cal.showEventModal;
    Deliver(host, call);
    assert host.events == cal.events;

    // Opened, Delete, confirmed: the event is gone and both dialogs are closed.
    cal.HandleEventClick(dragged);
    cal.SetShowDeleteModal(true);
    var deleted, said := cal.ConfirmDeleteEvent();
    assert deleted == Some(EventDelete(standup.id)) && said == Some(Success(DeletedMessage));
    assert cal.events == [] && !cal.showEventModal && !cal.showDeleteModal && cal.currentEvent == None;
    Deliver(host, deleted);
    assert host.events == [];
    assert host.resources == [lane1, lane2];
  }
}
