/**
 * The event dialog's field edits. Each one spreads the current draft and
 * overwrites one field (`{ ...currentEvent!, title: value }`); spreading
 * `null` yields an empty object, so an edit without a draft starts from the
 * empty draft. The colour picker writes the background and the border
 * together.
 */
module DraftEdits {
  import opened Wrappers
  import opened Types
  import opened CalendarHook

  /** The object a spread of the current draft yields. */
  function Base(d: Option<Draft>): Draft
  {
    if d.Some? then d.value else EmptyDraft
  }

  /** The title input. */
  function WithTitle(d: Option<Draft>, title: string): (r: Draft)
    ensures r.title == Some(title) && r.(title := Base(d).title) == Base(d)
  {
    Base(d).(title := Some(title))
  }

  /** The resource selector. */
  function WithResourceId(d: Option<Draft>, resourceId: string): (r: Draft)
    ensures r.resourceId == Some(resourceId) && r.(resourceId := Base(d).resourceId) == Base(d)
  {
    Base(d).(resourceId := Some(resourceId))
  }

  /** The start input (its text already read as an instant). */
  function WithStart(d: Option<Draft>, start: int): (r: Draft)
    ensures r.start == Some(start) && r.(start := Base(d).start) == Base(d)
  {
    Base(d).(start := Some(start))
  }

  /** The end input (its text already read as an instant). */
  function WithEnd(d: Option<Draft>, end: int): (r: Draft)
    ensures r.end == Some(end) && r.(end := Base(d).end) == Base(d)
  {
    Base(d).(end := Some(end))
  }

  /** The colour picker: background and border both take the picked colour. */
  function WithColor(d: Option<Draft>, color: string): (r: Draft)
    ensures r.backgroundColor == r.borderColor == Some(color)
    ensures r.(backgroundColor := Base(d).backgroundColor, borderColor := Base(d).borderColor) == Base(d)
  {
    Base(d).(backgroundColor := Some(color), borderColor := Some(color))
  }

  /**
   * After a title edit the draft is savable exactly when the title is not
   * empty and the draft has a resource.
   */
  lemma TitleEditDecidesSave(d: Draft, title: string)
    ensures Committable(Some(WithTitle(Some(d), title))) <==> title != "" && Truthy(d.resourceId)
  {
  }

  /** A picked colour is what the saved event shows, as background and as border. */
  lemma PickedColorIsCommitted(d: Option<Draft>, color: string, now: nat)
    requires color != ""
    requires Committable(Some(WithColor(d, color)))
    ensures NewEvent(WithColor(d, color), now).backgroundColor == Some(color)
    ensures NewEvent(WithColor(d, color), now).borderColor == Some(color)
  {
  }
}
