# Resource timeline calendar: event lifecycle model

A Dafny model of the event-lifecycle core of a resource timeline calendar.
The calendar component (`useCalendarEvents`) owns five pieces of state:

- the event list
- the resource list
- one draft event (or none)
- an edit-vs-create flag
- the flags of the event dialog and the delete-confirmation dialog

Its handlers turn renderer and dialog signals into changes of that state.
These signals are:

- slot click
- event click
- drag and resize
- Save
- confirmed Delete
- Add Event

Each committed change is reported to the host through an optional callback.
The host page (`Index`) keeps its own event list and applies each callback
with the same three list operations: replace-by-id, append and
remove-by-id.

Modules:

- `Wrappers`: `Option` (TypeScript's optional fields and `null`).
- `Types`: `Resource`, `CalendarEvent`, the partial event `Draft`, and
  `HostCall` (one callback invocation). Also the predicates `UniqueIds` and
  `Absent`.
- `EventList`: the shared list operations `ReplaceById` (`map`),
  `RemoveById` (`filter`) and append (`+ [e]`), and their laws.
- `EventIds`: the generated id `event-<clock reading in decimal>`, and its
  injectivity.
- `CalendarHook`: class `Calendar` with the hook's state and handlers, plus
  the pure pieces it uses. These are the draft builders, the save
  validation (`Committable`) and the committed-event builder (`NewEvent`).
- `DraftEdits`: the event dialog's field edits, each a shallow overwrite
  of the draft.
- `IndexPage`: class `Index`, the host page with its three reducers.
- `HostBridge`: how the callbacks reach the page. Shows that page and
  calendar stay equal after a drop, a resize, a save or a delete. Also
  has a client walk through create, reject, move and delete.

Abstractions:

- Instants are integer milliseconds.
- The clock (`Date.now()`, `new Date()`) is a parameter `now: nat`.
- A toast is a returned `Toast` value (`Success` or `Error` with the
  source's message).
- A host callback invocation is a returned `Option<HostCall>`. It is
  `None` when the host did not supply that callback.
- Whether the host supplied each callback is fixed at construction
  (`hasOnEventChange`, `hasOnEventAdd`, `hasOnEventDelete`).
- JavaScript truthiness of an optional string (`!x`, `x || d`) is
  `Truthy`: present and non-empty.

In three places the code does something one might not expect; the model
follows the code:

- Drag and resize do not normalise colours. They store the renderer's
  `backgroundColor`, `borderColor` and `textColor` as they are
  (`useCalendarEvents.ts:64-73`). Only a dialog save forces
  `borderColor == backgroundColor` and a white text colour.
- Drag and resize with an id that matches no stored event still report
  the change to the host and show a success toast. The list is left
  unchanged.
- Cancel on the event dialog only closes it (`setShowEventModal(false)`).
  The draft stays. A save leaves `isEditing` as it was. Only a committed
  save or a confirmed delete clears the draft; a rejected save keeps it.

## Model

| member | source | states |
|---|---|---|
| `EventList.ReplaceById` | src/pages/Index.tsx:11-14 | Same length. Every element with the updated event's id becomes that event. Every other element stays in its place. Ids stay position by position. |
| `EventList.RemoveById` | src/pages/Index.tsx:21-24 | No element of the result has the id. An event is in the result iff it was in the list and has another id. Never longer. How many copies are kept, and their order, are stated by the three lemmas below. |
| `EventList.RemoveCounts` | src/pages/Index.tsx:23 | Each event with another id keeps exactly as many copies as it had, and an event with the id keeps none. |
| `EventList.RemoveSingleton` | src/components/calendar/useCalendarEvents.ts:152 | A one-event list keeps its event iff the event has another id. With `RemoveConcat`, this fixes the result's order as the old order. |
| `EventList.ReplaceAbsentIsNoOp` | src/pages/Index.tsx:13 | Replacing with an id that is in no element leaves the list equal to the old one. |
| `EventList.RemoveAbsentIsNoOp` | src/components/calendar/useCalendarEvents.ts:152 | Removing an id that is in no element leaves the list equal to the old one. |
| `EventList.RemoveConcat` | src/pages/Index.tsx:23 | Removal distributes over concatenation. With `RemoveSingleton`, this means the remaining elements keep their original order. |
| `EventList.ReplaceIdempotent` | src/components/calendar/useCalendarEvents.ts:130 | Replacing twice with the same event gives the same list as replacing once. |
| `EventList.RemoveIdempotent` | src/components/calendar/useCalendarEvents.ts:152 | Removing twice with the same id gives the same list as removing once. |
| `EventList.AddThenDelete` | src/pages/Index.tsx:16-24 | Appending an event with a fresh id and then deleting that id restores the old list. |
| `EventList.ChangeThenDelete` | src/pages/Index.tsx:11-24 | Deleting an id after replacing the event with that id gives the same list as deleting it straight away. |
| `EventList.ReplaceKeepsUnique` | src/components/calendar/useCalendarEvents.ts:75 | Replace-by-id keeps ids unique. |
| `EventList.RemoveKeepsUnique` | src/components/calendar/useCalendarEvents.ts:152 | Remove-by-id keeps ids unique. |
| `EventList.AppendKeepsUnique` | src/components/calendar/useCalendarEvents.ts:137 | Appending an event whose id is absent keeps ids unique. |
| `EventList.ReplaceBySelfIsNoOp` | src/components/calendar/useCalendarEvents.ts:128-130 | With unique ids, replacing a stored event by itself leaves the list unchanged. |
| `EventIds.GeneratedId` | src/components/calendar/useCalendarEvents.ts:118 | The generated id starts with `event-` and is longer than that prefix. |
| `EventIds.DecimalRoundTrip` | src/components/calendar/useCalendarEvents.ts:118 | Reading the decimal text of a clock reading back as a number gives that reading. |
| `EventIds.GeneratedIdInjective` | src/components/calendar/useCalendarEvents.ts:118 | Two clock readings that generate the same id are equal. |
| `CalendarHook.CreateDraft` | src/components/calendar/useCalendarEvents.ts:33-39 | A create draft starts at the given instant and ends 3600000 ms later. It has no id, title `""`, the given resource and background `#3788d8`. Border and text colour are absent. |
| `CalendarHook.NewEvent` | src/components/calendar/useCalendarEvents.ts:117-126 | Id, title and resource are non-empty. The id is the draft's id if truthy, else `event-<now>`. Missing start defaults to `now` and missing end to `now + 3600000`. Background is the draft's if truthy, else `#3788d8`. Border equals background and text is `#ffffff`. |
| `CalendarHook.UneditedSaveRecommits` | src/components/calendar/useCalendarEvents.ts:44-56 | Take a committed event shown by the renderer as it is stored. Opening it gives a savable draft, and saving that draft unedited commits exactly the same event. |
| `CalendarHook.GeneratedCreateKeepsUnique` | src/components/calendar/useCalendarEvents.ts:117-141 | Suppose every stored id was generated at an earlier clock reading. Then the id generated now is absent. Creating with it keeps ids unique and all generated before the next reading. |
| `CalendarHook.Calendar.constructor` | src/components/calendar/useCalendarEvents.ts:13-18 | The lists are the host's. There is no draft and the mode is create. Both dialogs are closed. |
| `CalendarHook.Calendar.SyncResources` | src/components/calendar/useCalendarEvents.ts:20-23 | A new host resource array replaces the resource list. Everything else is unchanged. |
| `CalendarHook.Calendar.SyncEvents` | src/components/calendar/useCalendarEvents.ts:25-28 | A new host event array replaces the event list (so reading it back gives that array). The draft and flags are unchanged. |
| `CalendarHook.Calendar.HandleDateClick` | src/components/calendar/useCalendarEvents.ts:30-42 | The draft becomes a create draft at the clicked instant on the clicked resource's id, or `""`. Mode is create and the event dialog opens. Events and resources are unchanged. |
| `CalendarHook.Calendar.HandleEventClick` | src/components/calendar/useCalendarEvents.ts:44-56 | The draft becomes the clicked event's id, title, start, end, first resource id (or `""`) and background. Mode is edit and the event dialog opens. Events are unchanged. |
| `CalendarHook.Calendar.HandleEventDrop` | src/components/calendar/useCalendarEvents.ts:58-82 | Events become replace-by-id with the renderer's record. `onEventChange` fires once with that record if supplied, even when no id matched. Toast is success. Draft, mode, dialogs and resources are unchanged. |
| `CalendarHook.Calendar.HandleEventResize` | src/components/calendar/useCalendarEvents.ts:84-107 | Same update, callback and toast as a drop. |
| `CalendarHook.Calendar.HandleSaveEvent` | src/components/calendar/useCalendarEvents.ts:109-146 | See the details below the table. |
| `CalendarHook.Calendar.ConfirmDeleteEvent` | src/components/calendar/useCalendarEvents.ts:148-164 | See the details below the table. |
| `CalendarHook.Calendar.HandleAddEventClick` | src/components/calendar/useCalendarEvents.ts:166-179 | The draft becomes a create draft starting at `now` on the first resource's id, or `""` when there are no resources. Mode is create and the event dialog opens. Events are unchanged. |
| `CalendarHook.Calendar.SetCurrentEvent` | src/components/calendar/useCalendarEvents.ts:185 | Only the draft changes. |
| `CalendarHook.Calendar.SetShowEventModal` | src/components/calendar/useCalendarEvents.ts:188 | Only the event-dialog flag changes, so Cancel keeps the draft. |
| `CalendarHook.Calendar.SetShowDeleteModal` | src/components/calendar/useCalendarEvents.ts:190 | Only the delete-dialog flag changes. |
| `DraftEdits.WithTitle` | src/components/calendar/EventModal.tsx:53 | Only the title changes. A missing draft starts empty. |
| `DraftEdits.WithResourceId` | src/components/calendar/EventModal.tsx:62 | Only the resource id changes. |
| `DraftEdits.WithStart` | src/components/calendar/EventModal.tsx:85-88 | Only the start changes. |
| `DraftEdits.WithEnd` | src/components/calendar/EventModal.tsx:100-103 | Only the end changes. |
| `DraftEdits.WithColor` | src/components/calendar/EventModal.tsx:115-119 | Background and border both become the picked colour. Nothing else changes. |
| `DraftEdits.TitleEditDecidesSave` | src/components/calendar/useCalendarEvents.ts:112 | After a title edit, the draft is savable iff the title is non-empty and the draft has a resource. |
| `DraftEdits.PickedColorIsCommitted` | src/components/calendar/useCalendarEvents.ts:123-124 | A non-empty picked colour is the saved event's background and border. |
| `IndexPage.Index.constructor` | src/pages/Index.tsx:8-9 | The page holds the sample lists. Its resources are a constant field, so no handler can change them. |
| `IndexPage.Index.HandleEventChange` | src/pages/Index.tsx:11-14 | Events become replace-by-id with the updated event. |
| `IndexPage.Index.HandleEventAdd` | src/pages/Index.tsx:16-19 | The new event is appended last. Length grows by one and the prefix is the old list. |
| `IndexPage.Index.HandleEventDelete` | src/pages/Index.tsx:21-24 | Events become remove-by-id, and no event has the id. |
| `HostBridge.Deliver` | src/pages/Index.tsx:46-48 | Each callback reaches the matching page handler. No call leaves the page unchanged. |
| `HostBridge.MoveKeepsHostInStep` | src/components/calendar/useCalendarEvents.ts:75-79 | Start with equal lists and `onEventChange` supplied. After a drop, the calendar and the page hold the same replaced list. |
| `HostBridge.ResizeKeepsHostInStep` | src/components/calendar/useCalendarEvents.ts:100-104 | Start with equal lists and `onEventChange` supplied. After a resize, the calendar and the page hold the same replaced list. |
| `HostBridge.SaveKeepsHostInStep` | src/components/calendar/useCalendarEvents.ts:128-142 | Start with equal lists. After a save both lists are still equal. A rejected save leaves the page unchanged. A committed save makes the page hold its old list with `NewEvent` of the draft appended (create mode, one longer) or replaced by id (edit mode, same length). |
| `HostBridge.DeleteKeepsHostInStep` | src/components/calendar/useCalendarEvents.ts:151-156 | Start with equal lists. After a confirmed delete both are equal. With a truthy draft id the page becomes remove-by-id of its old list, so that id is absent and the other events stay in order. Without one the page is unchanged. |

`CalendarHook.Calendar.HandleSaveEvent`:

- Rejected save. The draft is missing, or its title or resource is empty.
  Events, draft and event-dialog flag are unchanged. No callback fires.
  The toast is the "required fields" error.
- Edit mode. Events become replace-by-id with `NewEvent`. `onEventChange`
  fires once if supplied.
- Create mode. `NewEvent` is appended last. `onEventAdd` fires once if
  supplied.
- After a committed save, the draft is cleared and the event dialog
  closes.
- Any call it emits, applied to the old list, gives the new list.

`CalendarHook.Calendar.ConfirmDeleteEvent`:

- With a truthy draft id, every event with that id is removed.
  `onEventDelete` fires with the id, and the toast is success.
- Otherwise events are unchanged, with no callback and no toast.
- In both cases the draft is cleared and both dialogs close.

## Left out

- Rendering, layout and the timeline library: `CalendarView.tsx`,
  `CalendarToolbar.tsx` and the dialog markup. The model keeps only the
  signals they raise and the draft edits the dialog makes.
- Instants are not parsed or formatted. ISO-8601 text,
  `toISOString().slice(0, 16)` and `datetime-local` time zones are outside
  the model. The renderer is taken to supply both instants of an event.
  This leaves out events without an end. For those the renderer reports
  `endStr` as `""`, and drop and resize store that empty end
  (`useCalendarEvents.ts:69`, `useCalendarEvents.ts:94`). A later save of
  such an event replaces the empty end with one computed from the clock
  (`useCalendarEvents.ts:122`). `RenderedEvent.end` is an integer, so it
  can express neither case.
- The clock is a parameter, and each handler reads it once.
  `HandleSaveEvent` uses the one reading for the id, the default start and
  the default end. `HandleAddEventClick` uses it for both start and end, so
  its draft lasts exactly 3600000 ms. The source reads `Date.now()` and
  `new Date()` separately in both handlers
  (`useCalendarEvents.ts:118-122`, `useCalendarEvents.ts:171-172`). Its
  values could therefore differ by a few milliseconds, and the end of an
  added draft can fall slightly more than an hour after its start.
- `EventIds.GeneratedId`: clock readings are natural numbers. Instants
  before 1970, which would print a minus sign, are not modelled.
- The open-ended extension attributes (`[key: string]: any`) of resources
  and events are not modelled.
- The drop and resize signal's `oldEvent` is only logged by the source and
  is not modelled.
- `console.log` and the display of toasts are not modelled.
- React's identity-based change detection is not modelled. A host update
  is an explicit call to `SyncEvents` or `SyncResources`.
- `src/data/calendarData.ts` is not part of this model. The sample data
  depends on the wall-clock date.
- There is no concurrency. Handlers run one at a time, to completion.
- `HostBridge.MoveKeepsHostInStep`, `ResizeKeepsHostInStep`,
  `SaveKeepsHostInStep` and `DeleteKeepsHostInStep`: these require the relevant callbacks to be
  supplied. Without them the page does not hear of the change, and its list
  falls behind the calendar's.
