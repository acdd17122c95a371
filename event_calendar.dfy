/**
 * The popover variant of the scheduler (EventCalendar.jsx): selecting a
 * range opens a popover holding a pending event with a title field; its
 * button appends the pending event when the title is not empty; clicking an
 * event asks for confirmation and then deletes every event with its id.
 */
module EventCalendar {
  import opened Options
  import opened Events

  /** `newEvent`: the pending title and the bounds of the last selection. */
  datatype NewEvent = NewEvent(title: string, start: string, end: string)

  /** A DOM element the popover can hang from (`selectInfo.jsEvent.target`). */
  type Element = nat

  /**
   * The event list after `handleAddEvent` (lines 39-52): unchanged for an
   * empty title; otherwise exactly one event appended, carrying the pending
   * title and bounds verbatim, with the earlier events as they were.
   */
  function AddPending(events: seq<Event>, pending: NewEvent, freshId: int): (r: seq<Event>)
    ensures pending.title == "" ==> r == events
    ensures pending.title != "" ==> |r| == |events| + 1 && r[..|events|] == events
    ensures pending.title != "" ==> r[|events|] == Event(freshId, pending.title, pending.start, pending.end)
  {
    if pending.title != "" then events + [Event(freshId, pending.title, pending.start, pending.end)] else events
  }

  /**
   * The event list after `handleEventClick` (lines 29-33) with the answer to
   * the confirmation. Declined: unchanged. Confirmed: exactly the events
   * without the clicked id remain, each as often as before and in their
   * original order, and the list is no longer than before.
   */
  function DeleteClicked(events: seq<Event>, clickedId: int, confirmed: bool): (r: seq<Event>)
    ensures !confirmed ==> r == events
    ensures confirmed ==> forall e :: e in r <==> e in events && e.id != clickedId
    ensures confirmed ==> forall e :: multiset(r)[e] == if e.id != clickedId then multiset(events)[e] else 0
    ensures confirmed ==> IsSubsequence(r, events) && |r| <= |events|
  {
    RemoveByIdSpec(events, clickedId);
    if confirmed then RemoveById(events, clickedId) else events
  }

  /** Confirming the deletion of an id twice leaves the same list as confirming it once. */
  lemma DeleteClickedTwice(events: seq<Event>, clickedId: int)
    ensures DeleteClicked(DeleteClicked(events, clickedId, true), clickedId, true) == DeleteClicked(events, clickedId, true)
  {
    RemoveByIdIdempotent(events, clickedId);
  }

  /** Deleting the seed meeting (id 1) leaves the workshop alone; declining leaves both. */
  lemma DeleteSeedMeeting()
    ensures DeleteClicked(Seeds(), 1, true) == [Seeds()[1]]
    ensures DeleteClicked(Seeds(), 1, false) == Seeds()
  {
    var seeds := Seeds();
    assert seeds[1..][1..] == [];
  }

  /** The component's state: `events`, `anchorEl` (the popover is open when it is set) and `newEvent`. */
  class EventScheduler {
    var events: seq<Event>
    var anchorEl: Option<Element>
    var newEvent: NewEvent

    /** Mounting (lines 13-18): the seed list, no anchor, a blank pending event. */
    constructor ()
      ensures events == Seeds() && anchorEl == None && newEvent == NewEvent("", "", "")
    {
      events := Seeds();
      anchorEl := None;
      newEvent := NewEvent("", "", "");
    }

    /**
     * `handleDateSelect` (lines 20-27): a blank-titled pending event with
     * the selection's bounds, and the popover anchored at the selection.
     */
    method HandleDateSelect(startStr: string, endStr: string, target: Element)
      modifies this
      ensures events == old(events)
      ensures newEvent == NewEvent("", startStr, endStr)
      ensures anchorEl == Some(target)
    {
      newEvent := NewEvent("", startStr, endStr);
      anchorEl := Some(target);
    }

    /** `handleEventClick` (lines 29-33); `confirmed` is the answer to `window.confirm`. */
    method HandleEventClick(clickedId: int, confirmed: bool)
      modifies this
      ensures events == DeleteClicked(old(events), clickedId, confirmed)
      ensures anchorEl == old(anchorEl) && newEvent == old(newEvent)
    {
      if confirmed {
        events := RemoveById(events, clickedId);
      }
    }

    /** `handleClosePopover` (lines 35-37): only the anchor is cleared. */
    method HandleClosePopover()
      modifies this
      ensures anchorEl == None
      ensures events == old(events) && newEvent == old(newEvent)
    {
      anchorEl := None;
    }

    /**
     * `handleAddEvent` (lines 39-52): with an empty title nothing changes;
     * otherwise the pending event is appended and the popover closed. The
     * pending event itself is kept either way.
     */
    method HandleAddEvent(freshId: int)
      modifies this
      ensures events == AddPending(old(events), old(newEvent), freshId)
      ensures anchorEl == if old(newEvent).title == "" then old(anchorEl) else None
      ensures newEvent == old(newEvent)
    {
      if newEvent.title != "" {
        events := events + [Event(freshId, newEvent.title, newEvent.start, newEvent.end)];
        HandleClosePopover();
      }
    }

    /** The title field's `onChange` (line 84). */
    method HandleTitleChange(value: string)
      modifies this
      ensures newEvent == old(newEvent).(title := value)
      ensures events == old(events) && anchorEl == old(anchorEl)
    {
      newEvent := newEvent.(title := value);
    }
  }
}
