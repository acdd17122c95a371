/**
 * The modal variant of the scheduler (src/component/Event012.jsx): a calendar
 * whose selections and clicks open an add/edit modal, a form with date and
 * time fields, a primary button that saves the form, and a busy-slot check
 * that disables time options already taken by a stored event.
 *
 * The component's state is the event list and the modal record; each handler
 * replaces one or both of them. Saving is modelled as the code is written,
 * including what it does in edit mode: the map step writes the form into the
 * matching records and the following filter, whose test never looks at the
 * element, then drops every record.
 */
module Event012 {
  import opened Options
  import opened JsStrings
  import opened Timestamps
  import opened Events

  datatype Mode = Add | Edit

  /** `modal.event`: the form fields. The id is `null` (`None`) until an event is clicked. */
  datatype Form = Form(id: Option<int>, title: string,
                       startDate: string, startTime: string,
                       endDate: string, endTime: string)

  datatype Modal = Modal(isOpen: bool, mode: Mode, event: Form)

  function BlankForm(): Form
  {
    Form(None, "", "", "", "", "")
  }

  /** The state `handleCloseModal` installs, which is also the initial one. */
  function ClosedModal(): Modal
  {
    Modal(false, Add, BlankForm())
  }

  // ---------------------------------------------------------------------------
  // Splitting the calendar's ISO strings
  // ---------------------------------------------------------------------------

  /** `s.split('T')[0]`: the date part of an ISO string. */
  function DatePart(s: string): (date: string)
    ensures date <= s && 'T' !in date
    ensures |date| < |s| ==> s[|date|] == 'T'
  {
    FirstPiece(s, 'T');
    Split(s, 'T')[0]
  }

  /**
   * `s.split('T')[1].substring(0, 5)`: the first five characters after the
   * first `'T'`, cut short by a second `'T'` or by the end of `s`. `None`
   * when `s` has no `'T'`: `split('T')[1]` is then `undefined` and calling
   * `substring` on it throws.
   */
  function TimePart(s: string): (time: Option<string>)
    ensures time.Some? <==> 'T' in s
    ensures time.Some? ==> |time.value| <= 5 && DatePart(s) + "T" + time.value <= s
    ensures time.Some? ==> 'T' !in time.value
    ensures time.Some? && |time.value| < 5 ==>
              var stop := |DatePart(s)| + 1 + |time.value|;
              stop == |s| || s[stop] == 'T'
  {
    var pieces := Split(s, 'T');
    FirstPiece(s, 'T');
    if |pieces| < 2 then None
    else
      TimePartIsPrefix(s);
      TimePartStops(s);
      Some(Truncate(pieces[1], 5))
  }

  /** The second piece of a split on `'T'` is the first piece of what follows the first `'T'`. */
  lemma SecondPiece(s: string)
    requires 'T' in s
    ensures |Split(s, 'T')[0]| < |s|
    ensures |Split(s, 'T')| >= 2
    ensures Split(s, 'T')[1] == Split(s[|Split(s, 'T')[0]| + 1..], 'T')[0]
  {
    var date := Split(s, 'T')[0];
    FirstPiece(s, 'T');
    var tail := s[|date|..];
    var rest := s[|date| + 1..];
    assert s == date + tail;
    assert tail == [s[|date|]] + rest;
    SplitAfterPlain(date, tail, 'T');
    assert tail[0] == 'T' && tail[1..] == rest;
    assert Split(tail, 'T') == [""] + Split(rest, 'T');
  }

  /** The date part, a `'T'` and the start of the second piece spell a prefix of `s`. */
  lemma TimePartIsPrefix(s: string)
    requires 'T' in s
    ensures |Split(s, 'T')| >= 2
    ensures Split(s, 'T')[0] + "T" + Truncate(Split(s, 'T')[1], 5) <= s
  {
    var date := Split(s, 'T')[0];
    SecondPiece(s);
    var rest := s[|date| + 1..];
    FirstPiece(rest, 'T');
    var time := Truncate(Split(rest, 'T')[0], 5);
    assert time <= rest;
    FirstPiece(s, 'T');
    assert s == date + [s[|date|]] + rest;
    assert date + "T" + time == (date + "T" + rest)[..|date| + 1 + |time|];
  }

  /**
   * The start of the second piece holds no `'T'`; when it is shorter than
   * five, it runs up to the next `'T'` or to the end of `s`.
   */
  lemma TimePartStops(s: string)
    requires 'T' in s
    ensures |Split(s, 'T')| >= 2
    ensures 'T' !in Truncate(Split(s, 'T')[1], 5)
    ensures |Truncate(Split(s, 'T')[1], 5)| < 5 ==>
              var stop := |Split(s, 'T')[0]| + 1 + |Truncate(Split(s, 'T')[1], 5)|;
              stop == |s| || (stop < |s| && s[stop] == 'T')
  {
    var date := Split(s, 'T')[0];
    SecondPiece(s);
    var rest := s[|date| + 1..];
    var piece := Split(rest, 'T')[0];
    var time := Truncate(piece, 5);
    assert 'T' !in time by {
      assert forall k :: 0 <= k < |time| ==> time[k] == piece[k];
    }
    if |time| < 5 {
      FirstPiece(rest, 'T');
      assert time == piece;
      if |piece| < |rest| {
        assert s[|date| + 1 + |piece|] == rest[|piece|];
      }
    }
  }

  /**
   * For a string that starts with a well-formed `YYYY-MM-DDTHH:MM`, whatever
   * follows (seconds, fractions, a zone offset), the date part and the
   * truncated time part are the sixteen characters around the `'T'`.
   */
  lemma PartsOfShaped(s: string)
    requires |s| >= 16 && Shaped(s[..16])
    ensures DatePart(s) == s[..10]
    ensures TimePart(s) == Some(s[11..16])
  {
    var p := s[..16];
    forall k | 0 <= k < 16 && k != 10
      ensures s[k] != 'T'
    {
      assert s[k] == p[k];
      assert k == 4 || k == 7 || k == 13 || IsDigit(p[k]);
    }
    assert s[10] == p[10] == 'T';
    var date := DatePart(s);
    assert |date| == 10 by {
      assert forall k :: 0 <= k < |date| ==> date[k] == s[k];
    }
    var time := TimePart(s).value;
    assert |time| == 5 by {
      assert forall k :: 0 <= k < |time| ==> time[k] == s[11 + k];
    }
    assert time == s[11..16];
  }

  /** A stored date-time string starts with a well-formed `YYYY-MM-DDTHH:MM`. */
  lemma ShapedPrefix(s: string)
    requires Shaped(s)
    ensures |s| >= 16 && Shaped(s[..16])
  {
    var p := s[..16];
    assert forall k :: 0 <= k < 16 ==> p[k] == s[k];
    assert DigitsAt(p, 0) && DigitsAt(p, 2) && DigitsAt(p, 5) && DigitsAt(p, 8);
    assert DigitsAt(p, 11) && DigitsAt(p, 14);
  }

  // ---------------------------------------------------------------------------
  // Modal transitions
  // ---------------------------------------------------------------------------

  /**
   * `handleDateSelect` (lines 24-37): open the modal in add mode with the
   * selection's date as start date. The end date is cleared exactly when it
   * is set and falls before the new start date in string order, so afterwards
   * it is empty or not before the start date. Everything else is carried over.
   */
  function SelectDate(m: Modal, startStr: string): (r: Modal)
    ensures r.isOpen && r.mode == Add
    ensures r.event.startDate == DatePart(startStr)
    ensures r.event.endDate == "" || !StringLess(r.event.endDate, r.event.startDate)
    ensures r.event.endDate == m.event.endDate || r.event.endDate == ""
    ensures r.event.endDate != m.event.endDate ==> StringLess(m.event.endDate, r.event.startDate)
    ensures r.event.(startDate := m.event.startDate, endDate := m.event.endDate) == m.event
  {
    var selectedStartDate := DatePart(startStr);
    var endDate := if m.event.endDate != "" && StringLess(m.event.endDate, selectedStartDate)
                   then "" else m.event.endDate;
    m.(isOpen := true, mode := Add, event := m.event.(startDate := selectedStartDate, endDate := endDate))
  }

  /**
   * The string comparison in `handleDateSelect` is chronological on the
   * picker's `YYYY-MM-DD` dates: one date string is below another exactly
   * when its day comes first.
   */
  lemma DateStringOrder(a: string, b: string)
    requires |a| == 10 && |b| == 10
    requires Parse(a + "T00:00").Some? && Parse(b + "T00:00").Some?
    ensures StringLess(a, b) <==> Earlier(Parse(a + "T00:00").value, Parse(b + "T00:00").value)
  {
    var s, t := a + "T00:00", b + "T00:00";
    assert forall k :: 0 <= k < 10 ==> s[k] == a[k] && t[k] == b[k];
    assert s[10..] == t[10..];
    if a == b {
      StringLessTrichotomy(a, a);
    } else {
      var k := FirstDifference(a, b);
      forall j | 0 <= j < k
        ensures s[j] == t[j]
      {
        assert a[j] == a[..k][j];
      }
      StringLessAt(a, b, k);
      assert k != 4 && k != 7;
      DigitOrder(s, t, k);
    }
  }

  /** Two different strings of the same length have a first position where they differ. */
  lemma {:induction false} FirstDifference(a: string, b: string) returns (k: nat)
    requires |a| == |b| && a != b
    ensures k < |a| && a[k] != b[k] && a[..k] == b[..k]
  {
    if a[0] == b[0] {
      assert a == [a[0]] + a[1..] && b == [b[0]] + b[1..];
      var k' := FirstDifference(a[1..], b[1..]);
      k := k' + 1;
      assert a[..k] == [a[0]] + a[1..][..k'];
      assert b[..k] == [b[0]] + b[1..][..k'];
    } else {
      k := 0;
    }
  }

  /**
   * Two parsed date strings that agree before digit `k` of the date and
   * differ there: the earlier date is the one with the smaller digit.
   */
  lemma DigitOrder(s: string, t: string, k: nat)
    requires Parse(s).Some? && Parse(t).Some? && s[10..] == t[10..]
    requires k < 10 && k != 4 && k != 7 && s[k] != t[k]
    requires forall j :: 0 <= j < k ==> s[j] == t[j]
    ensures s[k] < t[k] <==> Earlier(Parse(s).value, Parse(t).value)
  {
    assert |s| == |t|;
    forall j | 10 <= j < |s| ensures s[j] == t[j] {
      assert s[j] == s[10..][j - 10];
    }
    var d, e := Parse(s).value, Parse(t).value;
    assert d.hour == e.hour && d.minute == e.minute && d.second == e.second by {
      assert TwoDigits(s, 11) == TwoDigits(t, 11) && TwoDigits(s, 14) == TwoDigits(t, 14);
      if |s| == 19 { assert TwoDigits(s, 17) == TwoDigits(t, 17); }
    }
    if k < 4 {
      assert d.year < e.year <==> s[k] < t[k];
    } else if k < 7 {
      assert d.year == e.year;
      assert d.month < e.month <==> s[k] < t[k];
    } else {
      assert d.year == e.year && d.month == e.month;
      assert d.day < e.day <==> s[k] < t[k];
    }
  }

  /**
   * `handleEventClick` (lines 40-58): open the modal in edit mode on the
   * clicked event. `None` when either string lacks a `'T'` and the handler
   * throws before it sets the modal. Otherwise rebuilding a date-time from
   * the form's date and time gives a prefix of the clicked string.
   */
  function ClickEvent(id: int, title: string, startStr: string, endStr: string): (r: Option<Modal>)
    ensures r.Some? <==> 'T' in startStr && 'T' in endStr
    ensures r.Some? ==> r.value.isOpen && r.value.mode == Edit
    ensures r.Some? ==> r.value.event.id == Some(id) && r.value.event.title == title
    ensures r.Some? ==> StartString(r.value.event) <= startStr && |r.value.event.startTime| <= 5
    ensures r.Some? ==> r.value.event.endDate + "T" + r.value.event.endTime <= endStr && |r.value.event.endTime| <= 5
    ensures r.Some? ==> r.value.event.startDate == DatePart(startStr) && Some(r.value.event.startTime) == TimePart(startStr)
    ensures r.Some? ==> r.value.event.endDate == DatePart(endStr) && Some(r.value.event.endTime) == TimePart(endStr)
  {
    match (TimePart(startStr), TimePart(endStr))
    case (Some(startTime), Some(endTime)) =>
      Some(Modal(true, Edit, Form(Some(id), title, DatePart(startStr), startTime, DatePart(endStr), endTime)))
    case _ => None
  }

  // ---------------------------------------------------------------------------
  // Saving (the modal's primary button, `handleDeleteEvent`)
  // ---------------------------------------------------------------------------

  /**
   * Line 74: the start date-time the form spells. Splitting it again gives
   * back the date and time fields, when neither holds a `'T'` and the time
   * has at most five characters.
   */
  function StartString(f: Form): (r: string)
    ensures 'T' !in f.startDate && 'T' !in f.startTime && |f.startTime| <= 5 ==>
              DatePart(r) == f.startDate && TimePart(r) == Some(f.startTime)
  {
    JoinedParts(f.startDate, f.startTime);
    f.startDate + "T" + f.startTime
  }

  /**
   * Line 75: the end date-time, or the start one when either end field is
   * empty. When both end fields are set, splitting it again gives them back
   * under the same conditions as `StartString`.
   */
  function EndString(f: Form): (r: string)
    ensures f.endDate == "" || f.endTime == "" ==> r == StartString(f)
    ensures f.endDate != "" && f.endTime != "" && 'T' !in f.endDate && 'T' !in f.endTime && |f.endTime| <= 5 ==>
              DatePart(r) == f.endDate && TimePart(r) == Some(f.endTime)
  {
    JoinedParts(f.endDate, f.endTime);
    if f.endDate != "" && f.endTime != "" then f.endDate + "T" + f.endTime else StartString(f)
  }

  /** A date and a time without `'T'` joined by `'T'` split back into the two. */
  lemma JoinedParts(date: string, time: string)
    ensures 'T' !in date && 'T' !in time && |time| <= 5 ==>
              DatePart(date + "T" + time) == date && TimePart(date + "T" + time) == Some(time)
  {
    if 'T' !in date && 'T' !in time && |time| <= 5 {
      var s := date + "T" + time;
      SplitAfterPlain(time, [], 'T');
      assert time + [] == time;
      assert Split(time, 'T') == [time];
      assert (['T'] + time)[1..] == time;
      assert Split(['T'] + time, 'T') == [""] + [time];
      assert s == date + (['T'] + time);
      SplitAfterPlain(date, ['T'] + time, 'T');
      assert date + "" == date;
      assert Split(s, 'T') == [date, time];
    }
  }

  /**
   * Clicking a record saved from a complete form gives back the form: the
   * dates and times the click puts in the modal are the ones that were saved.
   */
  lemma ClickSavedRecord(f: Form, freshId: int)
    requires 'T' !in f.startDate && 'T' !in f.startTime && |f.startTime| <= 5
    requires 'T' !in f.endDate && 'T' !in f.endTime && |f.endTime| <= 5
    requires f.endDate != "" && f.endTime != ""
    ensures var e := NewRecord(f, freshId);
            var m := ClickEvent(e.id, e.title, e.start, e.end);
            m.Some? && m.value.event == f.(id := Some(freshId), title := e.title)
  {
    var e := NewRecord(f, freshId);
    assert e.start == StartString(f) && e.end == EndString(f);
  }

  /**
   * Lines 81-86: the record add mode appends. The title keeps its length with
   * the first character upper-cased (an empty title stays empty), the start
   * joins the start fields with `'T'`, and the end is the start whenever an
   * end field is empty.
   */
  function NewRecord(f: Form, freshId: int): (e: Event)
    ensures e.id == freshId
    ensures |e.title| == |f.title|
    ensures f.title != "" ==> e.title[0] == ToUpper(f.title[0]) && e.title[1..] == f.title[1..]
    ensures e.start == f.startDate + "T" + f.startTime
    ensures f.endDate == "" || f.endTime == "" ==> e.end == e.start
    ensures f.endDate != "" && f.endTime != "" ==> e.end == f.endDate + "T" + f.endTime
  {
    Event(freshId, Capitalize(f.title), StartString(f), EndString(f))
  }

  /**
   * Lines 90-94: `prevEvents.map(...)` writing the form over every record
   * whose id is the form's id. The list keeps its length and its ids; the
   * other records are unchanged; a matching record takes the form's title
   * (not capitalised) and the form's start and end.
   */
  function ReplaceById(events: seq<Event>, f: Form): (r: seq<Event>)
    ensures |r| == |events|
    ensures forall i :: 0 <= i < |events| ==> r[i].id == events[i].id
    ensures forall i :: 0 <= i < |events| && f.id != Some(events[i].id) ==> r[i] == events[i]
    ensures forall i :: 0 <= i < |events| && f.id == Some(events[i].id) ==>
              r[i].title == f.title && r[i].start == StartString(f) && r[i].end == EndString(f)
  {
    Map(events, (e: Event) => if f.id == Some(e.id) then Event(e.id, f.title, StartString(f), EndString(f)) else e)
  }

  /**
   * `deleteEventById` (lines 68-70) as written: the filter's test compares
   * the form's id with the argument and never mentions the element, so it
   * either keeps every record or drops every record. Called with the form's
   * own id, it drops them all.
   */
  function DeleteEventById(events: seq<Event>, formId: Option<int>, id: Option<int>): (r: seq<Event>)
    ensures formId == id ==> r == []
    ensures formId != id ==> r == events
  {
    FilterConstant(events, (e: Event) => formId != id);
    Filter(events, (e: Event) => formId != id)
  }

  /**
   * The event list after `handleDeleteEvent` (lines 72-101). Add mode
   * appends exactly one record and leaves the earlier ones as they were;
   * edit mode applies the map and then `deleteEventById` on the form's id,
   * which leaves the list empty.
   */
  function Saved(events: seq<Event>, m: Modal, freshId: int): (r: seq<Event>)
    ensures m.mode == Add ==> |r| == |events| + 1 && r[..|events|] == events && r[|events|] == NewRecord(m.event, freshId)
    ensures m.mode == Edit ==> r == []
  {
    if m.mode == Add then events + [NewRecord(m.event, freshId)]
    else DeleteEventById(ReplaceById(events, m.event), m.event.id, m.event.id)
  }

  // ---------------------------------------------------------------------------
  // The busy-slot query
  // ---------------------------------------------------------------------------

  /** `isTimeDisabled(time, date)` (lines 104-110). */
  function IsTimeDisabled(events: seq<Event>, time: string, date: string): (disabled: bool)
    ensures disabled <==> exists i :: 0 <= i < |events| && Covers(events[i], date + "T" + time)
    ensures disabled ==> Parse(date + "T" + time).Some?
  {
    Busy(events, date + "T" + time)
  }

  /** Nothing is disabled while the list is empty, and appending an event only adds disabled times. */
  lemma IsTimeDisabledMonotone(events: seq<Event>, e: Event, time: string, date: string)
    ensures !IsTimeDisabled([], time, date)
    ensures IsTimeDisabled(events, time, date) ==> IsTimeDisabled(events + [e], time, date)
    ensures IsTimeDisabled(events + [e], time, date) ==> IsTimeDisabled(events, time, date) || Covers(e, date + "T" + time)
  {
    BusyAppend(events, e, date + "T" + time);
  }

  /** The date-times of the two seed events' bounds. */
  /** Whether the seed list disables `time` on `date`, given the date-time they spell. */
  lemma SeedSlot(time: string, date: string, d: DateTime)
    requires Parse(date + "T" + time) == Some(d)
    ensures IsTimeDisabled(Seeds(), time, date) <==>
              ((d.year, d.month, d.day) == (2024, 1, 1) && 10 <= d.hour < 12) ||
              ((d.year, d.month, d.day) == (2024, 1, 3) && 14 <= d.hour < 16)
  {
    var c := date + "T" + time;
    var seeds := Seeds();
    assert seeds[1..][1..] == [];
    CoversByFields(seeds[0], c);
    CoversByFields(seeds[1], c);
  }

  /**
   * With the seed list, 10:00 and 11:00 on 2024-01-01 are taken by the
   * meeting, 12:00 (its end) and 13:00 are free, and 15:00 on 2024-01-03 is
   * taken by the workshop.
   */
  lemma SeedSlots()
    ensures IsTimeDisabled(Seeds(), "10:00", "2024-01-01")
    ensures IsTimeDisabled(Seeds(), "11:00", "2024-01-01")
    ensures !IsTimeDisabled(Seeds(), "12:00", "2024-01-01")
    ensures !IsTimeDisabled(Seeds(), "13:00", "2024-01-01")
    ensures IsTimeDisabled(Seeds(), "15:00", "2024-01-03")
  {
    OpeningHours();
    ClosingHours();
    WorkshopHour();
    SeedSlot("10:00", "2024-01-01", DateTime(2024, 1, 1, 10, 0, 0));
    SeedSlot("11:00", "2024-01-01", DateTime(2024, 1, 1, 11, 0, 0));
    SeedSlot("12:00", "2024-01-01", DateTime(2024, 1, 1, 12, 0, 0));
    SeedSlot("13:00", "2024-01-01", DateTime(2024, 1, 1, 13, 0, 0));
    SeedSlot("15:00", "2024-01-03", DateTime(2024, 1, 3, 15, 0, 0));
  }

  // The candidates `SeedSlots` asks about, a few literals per lemma.

  lemma OpeningHours()
    ensures Parse("2024-01-01" + "T" + "10:00") == Some(DateTime(2024, 1, 1, 10, 0, 0))
    ensures Parse("2024-01-01" + "T" + "11:00") == Some(DateTime(2024, 1, 1, 11, 0, 0))
  {
    assert "2024-01-01" + "T" + "10:00" == "2024-01-01T10:00";
    assert "2024-01-01" + "T" + "11:00" == "2024-01-01T11:00";
  }

  lemma ClosingHours()
    ensures Parse("2024-01-01" + "T" + "12:00") == Some(DateTime(2024, 1, 1, 12, 0, 0))
    ensures Parse("2024-01-01" + "T" + "13:00") == Some(DateTime(2024, 1, 1, 13, 0, 0))
  {
    assert "2024-01-01" + "T" + "12:00" == "2024-01-01T12:00";
    assert "2024-01-01" + "T" + "13:00" == "2024-01-01T13:00";
  }

  lemma WorkshopHour()
    ensures Parse("2024-01-03" + "T" + "15:00") == Some(DateTime(2024, 1, 3, 15, 0, 0))
  {
    assert "2024-01-03" + "T" + "15:00" == "2024-01-03T15:00";
  }

  /**
   * While an event is being edited, the start time shown in the form is
   * disabled in the picker: the check does not leave out the event itself.
   * This holds for every stored event that starts on a whole minute and
   * ends later than it starts.
   */
  lemma OwnStartBusyWhileEditing(events: seq<Event>, i: nat)
    requires i < |events|
    requires Parse(events[i].start).Some? && Parse(events[i].start).value.second == 0
    requires Before(Instant(events[i].start), Instant(events[i].end))
    ensures ClickEvent(events[i].id, events[i].title, events[i].start, events[i].end).Some?
    ensures var m := ClickEvent(events[i].id, events[i].title, events[i].start, events[i].end).value;
            IsTimeDisabled(events, m.event.startTime, m.event.startDate)
  {
    var e := events[i];
    ShapedPrefix(e.start);
    ShapedPrefix(e.end);
    PartsOfShaped(e.start);
    PartsOfShaped(e.end);
    var m := ClickEvent(e.id, e.title, e.start, e.end).value;
    SameInstantWithoutSeconds(e.start);
    assert m.event.startDate + "T" + m.event.startTime == e.start[..16];
  }

  /** A well-formed string whose seconds are zero denotes the same instant as its first sixteen characters. */
  lemma SameInstantWithoutSeconds(s: string)
    requires Parse(s).Some? && Parse(s).value.second == 0
    ensures s[10] == 'T' && 'T' in s
    ensures Instant(s[..10] + "T" + s[11..16]) == Instant(s)
  {
    assert s[..10] + "T" + s[11..16] == s[..16];
    if |s| == 19 {
      SecondsDefaultToZero(s[..16]);
      assert Digit(s[17]) == 0 && Digit(s[18]) == 0;
      assert s == s[..16] + ":00";
    } else {
      assert s == s[..16];
    }
  }

  /**
   * Adding "standup" on 2024-01-02 from 09:00 to 09:30 to the seed list
   * appends "Standup" as the third event, and 09:15 that day, free before,
   * is disabled afterwards.
   */
  lemma StandupScenario(freshId: int)
    ensures var m := Modal(true, Add, Form(None, "standup", "2024-01-02", "09:00", "2024-01-02", "09:30"));
            var after := Saved(Seeds(), m, freshId);
            && after == Seeds() + [Event(freshId, "Standup", "2024-01-02T09:00", "2024-01-02T09:30")]
            && !IsTimeDisabled(Seeds(), "09:15", "2024-01-02")
            && IsTimeDisabled(after, "09:15", "2024-01-02")
  {
    var e := Event(freshId, "Standup", "2024-01-02T09:00", "2024-01-02T09:30");
    StandupRecord(freshId);
    StandupFreeBefore();
    StandupCovers(freshId);
    IsTimeDisabledMonotone(Seeds(), e, "09:15", "2024-01-02");
  }

  lemma StandupFreeBefore()
    ensures !IsTimeDisabled(Seeds(), "09:15", "2024-01-02")
  {
    StandupDateTimes();
    SeedSlot("09:15", "2024-01-02", DateTime(2024, 1, 2, 9, 15, 0));
  }

  lemma StandupCovers(freshId: int)
    ensures Covers(Event(freshId, "Standup", "2024-01-02T09:00", "2024-01-02T09:30"), "2024-01-02" + "T" + "09:15")
  {
    StandupDateTimes();
    InstantOrder("2024-01-02T09:00", "2024-01-02" + "T" + "09:15");
    InstantOrder("2024-01-02" + "T" + "09:15", "2024-01-02T09:30");
  }

  lemma StandupRecord(freshId: int)
    ensures NewRecord(Form(None, "standup", "2024-01-02", "09:00", "2024-01-02", "09:30"), freshId)
            == Event(freshId, "Standup", "2024-01-02T09:00", "2024-01-02T09:30")
  {
    CapitalizeStandup();
    assert "2024-01-02" + "T" + "09:00" == "2024-01-02T09:00";
    assert "2024-01-02" + "T" + "09:30" == "2024-01-02T09:30";
  }

  lemma CapitalizeStandup()
    ensures Capitalize("standup") == "Standup"
  {
    var r := Capitalize("standup");
    assert ToUpper('s') == 'S';
    assert "standup"[1..] == "tandup";
    assert r == [r[0]] + r[1..];
  }

  lemma StandupDateTimes()
    ensures Parse("2024-01-02T09:00") == Some(DateTime(2024, 1, 2, 9, 0, 0))
    ensures Parse("2024-01-02T09:30") == Some(DateTime(2024, 1, 2, 9, 30, 0))
    ensures Parse("2024-01-02" + "T" + "09:15") == Some(DateTime(2024, 1, 2, 9, 15, 0))
  {
    assert "2024-01-02" + "T" + "09:15" == "2024-01-02T09:15";
  }

  // ---------------------------------------------------------------------------
  // The component
  // ---------------------------------------------------------------------------

  /** The component's state, `events` and `modal`; every handler replaces them whole. */
  class EventScheduler {
    var events: seq<Event>
    var modal: Modal

    /** Mounting: the seed list and a closed, blank add-mode modal (lines 13-22). */
    constructor ()
      ensures events == Seeds() && modal == ClosedModal()
    {
      events := Seeds();
      modal := ClosedModal();
    }

    /** `handleDateSelect` (lines 24-37): only the modal changes. */
    method HandleDateSelect(startStr: string)
      modifies this
      ensures events == old(events)
      ensures modal == SelectDate(old(modal), startStr)
    {
      modal := SelectDate(modal, startStr);
    }

    /**
     * `handleEventClick` (lines 40-58): only the modal changes. `threw` is
     * the TypeError raised when a string has no `'T'`; the state is then
     * left as it was.
     */
    method HandleEventClick(id: int, title: string, startStr: string, endStr: string) returns (threw: bool)
      modifies this
      ensures threw <==> 'T' !in startStr || 'T' !in endStr
      ensures events == old(events)
      ensures threw ==> modal == old(modal)
      ensures !threw ==> modal == ClickEvent(id, title, startStr, endStr).value
    {
      var clicked := ClickEvent(id, title, startStr, endStr);
      threw := clicked.None?;
      if !threw {
        modal := clicked.value;
      }
    }

    /** `handleCloseModal` (lines 60-66): the same closed, blank state from any state; the list is untouched. */
    method HandleCloseModal()
      modifies this
      ensures events == old(events)
      ensures modal == ClosedModal()
    {
      modal := ClosedModal();
    }

    /**
     * `handleDeleteEvent` (lines 72-101), the modal's primary button: add
     * mode appends one record, edit mode maps and then filters, and both
     * end by closing the modal.
     */
    method HandleDeleteEvent(freshId: int)
      modifies this
      ensures events == Saved(old(events), old(modal), freshId)
      ensures modal == ClosedModal()
    {
      // Line 73 compares the form object with '', which it never equals.
      if modal.mode == Add {
        events := events + [NewRecord(modal.event, freshId)];
      } else {
        events := ReplaceById(events, modal.event);
        // Line 96 compares the id with "", which no id equals.
        events := DeleteEventById(events, modal.event.id, modal.event.id);
      }
      HandleCloseModal();
    }

    /** The title field's `onChange` (lines 164-166). */
    method HandleTitleChange(value: string)
      modifies this
      ensures events == old(events)
      ensures modal == old(modal).(event := old(modal).event.(title := value))
    {
      modal := modal.(event := modal.event.(title := value));
    }

    /**
     * The start date picker's `onChange` (lines 179-181); `picked` is what
     * `date.toISOString()` returned, `None` when the picker was cleared.
     */
    method HandleStartDateChange(picked: Option<string>)
      modifies this
      ensures events == old(events)
      ensures modal == old(modal).(event := old(modal).event.(startDate := if picked.Some? then DatePart(picked.value) else ""))
    {
      var date := if picked.Some? then DatePart(picked.value) else "";
      modal := modal.(event := modal.event.(startDate := date));
    }

    /** The start time select's `onChange` (lines 198-200). */
    method HandleStartTimeChange(value: string)
      modifies this
      ensures events == old(events)
      ensures modal == old(modal).(event := old(modal).event.(startTime := value))
    {
      modal := modal.(event := modal.event.(startTime := value));
    }

    /** The end date picker's `onChange` (lines 225-227), as for the start date. */
    method HandleEndDateChange(picked: Option<string>)
      modifies this
      ensures events == old(events)
      ensures modal == old(modal).(event := old(modal).event.(endDate := if picked.Some? then DatePart(picked.value) else ""))
    {
      var date := if picked.Some? then DatePart(picked.value) else "";
      modal := modal.(event := modal.event.(endDate := date));
    }

    /** The end time select's `onChange` (lines 244-246). */
    method HandleEndTimeChange(value: string)
      modifies this
      ensures events == old(events)
      ensures modal == old(modal).(event := old(modal).event.(endTime := value))
    {
      modal := modal.(event := modal.event.(endTime := value));
    }
  }
}
