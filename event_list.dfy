/**
 * The three list transformations that both the calendar hook and the host
 * page apply to their event arrays: replace-by-id (`map`), append (spread)
 * and remove-by-id (`filter`). Every one yields a new list value.
 */
module EventList {
  import opened Types

  /**
   * `prev.map(event => event.id === updated.id ? updated : event)`:
   * every element with the updated event's id becomes that event; the
   * others keep their place.
   */
  function ReplaceById(es: seq<CalendarEvent>, updated: CalendarEvent): (r: seq<CalendarEvent>)
    ensures |r| == |es|
    ensures forall i :: 0 <= i < |es| ==>
      r[i] == (if es[i].id == updated.id then updated else es[i])
    ensures forall i :: 0 <= i < |es| ==> r[i].id == es[i].id
  {
    if es == [] then []
    else [if es[0].id == updated.id then updated else es[0]] + ReplaceById(es[1..], updated)
  }

  /**
   * `prev.filter(event => event.id !== id)`: the events with another id,
   * in their original order.
   */
  function RemoveById(es: seq<CalendarEvent>, id: string): (r: seq<CalendarEvent>)
    ensures Absent(r, id)
    ensures forall e :: e in r <==> e in es && e.id != id
    ensures |r| <= |es|
  {
    if es == [] then []
    else (if es[0].id == id then [] else [es[0]]) + RemoveById(es[1..], id)
  }

  /**
   * Removal keeps every copy of each event with another id (an append does
   * not check for duplicates) and no copy of an event with the id.
   */
  lemma {:induction false} RemoveCounts(es: seq<CalendarEvent>, id: string)
    ensures forall e :: multiset(RemoveById(es, id))[e] == if e.id == id then 0 else multiset(es)[e]
  {
    if es != [] {
      RemoveCounts(es[1..], id);
      assert es == [es[0]] + es[1..];
    }
  }

  /** What a host that mirrors the store does with one callback. */
  function Apply(es: seq<CalendarEvent>, call: HostCall): seq<CalendarEvent>
  {
    match call
    case EventChange(e) => ReplaceById(es, e)
    case EventAdd(e) => es + [e]
    case EventDelete(id) => RemoveById(es, id)
  }

  /** An update whose id matches nothing is a silent no-op. */
  lemma ReplaceAbsentIsNoOp(es: seq<CalendarEvent>, updated: CalendarEvent)
    requires Absent(es, updated.id)
    ensures ReplaceById(es, updated) == es
  {
    var r := ReplaceById(es, updated);
    assert forall i :: 0 <= i < |es| ==> r[i] == es[i];
  }

  /** A removal whose id matches nothing is a silent no-op. */
  lemma {:induction false} RemoveAbsentIsNoOp(es: seq<CalendarEvent>, id: string)
    requires Absent(es, id)
    ensures RemoveById(es, id) == es
  {
    if es != [] {
      RemoveAbsentIsNoOp(es[1..], id);
    }
  }

  /** Removal distributes over concatenation: the survivors keep their order. */
  lemma {:induction false} RemoveConcat(a: seq<CalendarEvent>, b: seq<CalendarEvent>, id: string)
    ensures RemoveById(a + b, id) == RemoveById(a, id) + RemoveById(b, id)
  {
    if a != [] {
      assert (a + b)[1..] == a[1..] + b;
      RemoveConcat(a[1..], b, id);
    } else {
      assert a + b == b;
    }
  }

  /** A single event survives removal exactly when it has another id. */
  lemma RemoveSingleton(e: CalendarEvent, id: string)
    ensures RemoveById([e], id) == if e.id == id then [] else [e]
  {
    assert [e][1..] == [];
  }

  /** Replacing twice with the same event is replacing once. */
  lemma ReplaceIdempotent(es: seq<CalendarEvent>, updated: CalendarEvent)
    ensures ReplaceById(ReplaceById(es, updated), updated) == ReplaceById(es, updated)
  {
    var r := ReplaceById(es, updated);
    var rr := ReplaceById(r, updated);
    assert forall i :: 0 <= i < |es| ==> rr[i] == r[i];
  }

  /** Removing twice with the same id is removing once. */
  lemma RemoveIdempotent(es: seq<CalendarEvent>, id: string)
    ensures RemoveById(RemoveById(es, id), id) == RemoveById(es, id)
  {
    RemoveAbsentIsNoOp(RemoveById(es, id), id);
  }

  /** Adding an event with a fresh id and then deleting that id restores the list. */
  lemma AddThenDelete(es: seq<CalendarEvent>, e: CalendarEvent)
    requires Absent(es, e.id)
    ensures RemoveById(es + [e], e.id) == es
  {
    RemoveConcat(es, [e], e.id);
    RemoveAbsentIsNoOp(es, e.id);
    assert RemoveById([e], e.id) == [] + RemoveById([], e.id);
  }

  /** Deleting an id after changing the event with that id forgets the change. */
  lemma {:induction false} ChangeThenDelete(es: seq<CalendarEvent>, updated: CalendarEvent)
    ensures RemoveById(ReplaceById(es, updated), updated.id) == RemoveById(es, updated.id)
  {
    if es != [] {
      var r := ReplaceById(es, updated);
      assert r[1..] == ReplaceById(es[1..], updated);
      ChangeThenDelete(es[1..], updated);
    }
  }

  /** Replacing by id keeps the ids unique, since it keeps every id in place. */
  lemma ReplaceKeepsUnique(es: seq<CalendarEvent>, updated: CalendarEvent)
    requires UniqueIds(es)
    ensures UniqueIds(ReplaceById(es, updated))
  {
  }

  /** Removing by id keeps the ids unique. */
  lemma {:induction false} RemoveKeepsUnique(es: seq<CalendarEvent>, id: string)
    requires UniqueIds(es)
    ensures UniqueIds(RemoveById(es, id))
  {
    if es != [] {
      RemoveKeepsUnique(es[1..], id);
      var tail := RemoveById(es[1..], id);
      forall k | 0 <= k < |tail|
        ensures tail[k].id != es[0].id
      {
        assert tail[k] in es[1..];
      }
    }
  }

  /** Appending an event whose id is not yet in the list keeps the ids unique. */
  lemma AppendKeepsUnique(es: seq<CalendarEvent>, e: CalendarEvent)
    requires UniqueIds(es) && Absent(es, e.id)
    ensures UniqueIds(es + [e])
  {
  }

  /**
   * Replacing an event by itself changes nothing when the ids are unique:
   * the only element carrying its id is the event itself.
   */
  lemma ReplaceBySelfIsNoOp(es: seq<CalendarEvent>, k: nat)
    requires UniqueIds(es) && k < |es|
    ensures ReplaceById(es, es[k]) == es
  {
    var r := ReplaceById(es, es[k]);
    forall i | 0 <= i < |es|
      ensures r[i] == es[i]
    {
      if i != k {
        assert es[i].id != es[k].id by {
          if i < k { } else { }
        }
      }
    }
  }
}
