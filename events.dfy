/**
 * The event list both calendar components keep in their `events` state: a
 * sequence of `{id, title, start, end}` records in insertion order, the two
 * seed events it starts from, the array operations the handlers apply to it
 * (`filter`, `map`, append) and the busy-slot query behind `isTimeDisabled`.
 */
module Events {
  import opened Options
  import opened Timestamps

  /** One calendar entry; `start` and `end` are the strings stored by the component. */
  datatype Event = Event(id: int, title: string, start: string, end: string)

  /**
   * The list each component starts from when it is mounted: two events with
   * distinct ids whose bounds are valid dates, 10:00 to 12:00 on 2024-01-01
   * and 14:00 to 16:00 on 2024-01-03.
   */
  function Seeds(): (s: seq<Event>)
    ensures |s| == 2 && s[0].id != s[1].id
    ensures Parse(s[0].start) == Some(DateTime(2024, 1, 1, 10, 0, 0))
    ensures Parse(s[0].end) == Some(DateTime(2024, 1, 1, 12, 0, 0))
    ensures Parse(s[1].start) == Some(DateTime(2024, 1, 3, 14, 0, 0))
    ensures Parse(s[1].end) == Some(DateTime(2024, 1, 3, 16, 0, 0))
  {
    MeetingStart();
    MeetingEnd();
    WorkshopStart();
    WorkshopEnd();
    [ Event(1, "Meeting", "2024-01-01T10:00:00", "2024-01-01T12:00:00"),
      Event(2, "Workshop", "2024-01-03T14:00:00", "2024-01-03T16:00:00") ]
  }

  // One seed bound per lemma, so that each literal is parsed on its own.

  lemma MeetingStart()
    ensures Parse("2024-01-01T10:00:00") == Some(DateTime(2024, 1, 1, 10, 0, 0))
  {
  }

  lemma MeetingEnd()
    ensures Parse("2024-01-01T12:00:00") == Some(DateTime(2024, 1, 1, 12, 0, 0))
  {
  }

  lemma WorkshopStart()
    ensures Parse("2024-01-03T14:00:00") == Some(DateTime(2024, 1, 3, 14, 0, 0))
  {
  }

  lemma WorkshopEnd()
    ensures Parse("2024-01-03T16:00:00") == Some(DateTime(2024, 1, 3, 16, 0, 0))
  {
  }

  // ---------------------------------------------------------------------------
  // Array.prototype.filter and Array.prototype.map
  // ---------------------------------------------------------------------------

  /**
   * `s.filter(keep)`: the elements `keep` accepts, each as often as it
   * occurs in `s`, in their original order (`FilterIsSubsequence`).
   */
  function Filter(s: seq<Event>, keep: Event -> bool): (r: seq<Event>)
    ensures |r| <= |s|
    ensures forall x :: x in r <==> x in s && keep(x)
    ensures forall x :: multiset(r)[x] == if keep(x) then multiset(s)[x] else 0
  {
    if s == [] then []
    else
      assert s == [s[0]] + s[1..];
      (if keep(s[0]) then [s[0]] else []) + Filter(s[1..], keep)
  }

  /** `s.map(f)`: `f` applied to every element, in place. */
  function Map<T, U>(s: seq<T>, f: T -> U): (r: seq<U>)
    ensures |r| == |s|
    ensures forall i :: 0 <= i < |s| ==> r[i] == f(s[i])
  {
    seq(|s|, i requires 0 <= i < |s| => f(s[i]))
  }

  /** `a` is `b` with some elements left out and the rest in their order. */
  predicate IsSubsequence<T(==)>(a: seq<T>, b: seq<T>)
  {
    if a == [] then true
    else if b == [] then false
    else if a[0] == b[0] then IsSubsequence(a[1..], b[1..])
    else IsSubsequence(a, b[1..])
  }

  /** A filter keeps the surviving elements in their original order. */
  lemma {:induction false} FilterIsSubsequence(s: seq<Event>, keep: Event -> bool)
    ensures IsSubsequence(Filter(s, keep), s)
  {
    if s != [] {
      FilterIsSubsequence(s[1..], keep);
      if keep(s[0]) {
        assert Filter(s, keep) == [s[0]] + Filter(s[1..], keep);
        assert Filter(s, keep)[1..] == Filter(s[1..], keep);
      } else {
        assert Filter(s, keep) == Filter(s[1..], keep);
        SubsequenceOfTail(Filter(s[1..], keep), s);
      }
    }
  }

  /** A subsequence of the tail is a subsequence of the whole. */
  lemma {:induction false} SubsequenceOfTail<T>(a: seq<T>, s: seq<T>)
    requires s != [] && IsSubsequence(a, s[1..])
    ensures IsSubsequence(a, s)
  {
    if a != [] && a[0] == s[0] {
      var t := s[1..];
      // a[0] occurs in the tail before the rest of a: drop it there too.
      SubsequenceDropHead(a, t);
    }
  }

  /** Dropping the first element of a subsequence keeps it a subsequence. */
  lemma {:induction false} SubsequenceDropHead<T>(a: seq<T>, t: seq<T>)
    requires a != [] && IsSubsequence(a, t)
    ensures IsSubsequence(a[1..], t)
  {
    if t != [] {
      if a[0] == t[0] {
        if a[1..] != [] {
          SubsequenceOfTail(a[1..], t);
        }
      } else {
        SubsequenceDropHead(a, t[1..]);
        if a[1..] != [] {
          SubsequenceOfTail(a[1..], t);
        }
      }
    }
  }

  /** Filtering again with the same test changes nothing. */
  lemma {:induction false} FilterIdempotent(s: seq<Event>, keep: Event -> bool)
    ensures Filter(Filter(s, keep), keep) == Filter(s, keep)
  {
    if s != [] {
      FilterIdempotent(s[1..], keep);
      var rest := Filter(s[1..], keep);
      if keep(s[0]) {
        var once := [s[0]] + rest;
        assert Filter(s, keep) == once;
        assert once[0] == s[0] && once[1..] == rest;
        assert Filter(once, keep) == [s[0]] + Filter(rest, keep);
      } else {
        assert Filter(s, keep) == [] + rest == rest;
      }
    }
  }

  /** A test that rejects every element leaves nothing; one that accepts every element leaves the list as it is. */
  lemma {:induction false} FilterConstant(s: seq<Event>, keep: Event -> bool)
    ensures (forall x :: x in s ==> !keep(x)) ==> Filter(s, keep) == []
    ensures (forall x :: x in s ==> keep(x)) ==> Filter(s, keep) == s
  {
    if s != [] {
      FilterConstant(s[1..], keep);
      assert forall x :: x in s[1..] ==> x in s;
      assert s == [s[0]] + s[1..];
    }
  }

  // ---------------------------------------------------------------------------
  // Deleting by id
  // ---------------------------------------------------------------------------

  /** `events.filter((event) => event.id !== id)`: every event with another id survives as often as it occurs, and none with this id. */
  function RemoveById(events: seq<Event>, id: int): (r: seq<Event>)
    ensures forall e :: multiset(r)[e] == if e.id != id then multiset(events)[e] else 0
  {
    Filter(events, (e: Event) => e.id != id)
  }

  /**
   * Deleting by id never lengthens the list, keeps the surviving events in
   * their original order and as often as they occurred, removes exactly the
   * events with that id, and
   * leaves a list without that id untouched.
   */
  lemma RemoveByIdSpec(events: seq<Event>, id: int)
    ensures |RemoveById(events, id)| <= |events|
    ensures IsSubsequence(RemoveById(events, id), events)
    ensures forall e :: e in RemoveById(events, id) <==> e in events && e.id != id
    ensures forall e :: multiset(RemoveById(events, id))[e] == if e.id != id then multiset(events)[e] else 0
    ensures (forall e :: e in events ==> e.id != id) ==> RemoveById(events, id) == events
  {
    FilterIsSubsequence(events, (e: Event) => e.id != id);
    FilterConstant(events, (e: Event) => e.id != id);
  }

  /** Deleting the same id twice is deleting it once. */
  lemma RemoveByIdIdempotent(events: seq<Event>, id: int)
    ensures RemoveById(RemoveById(events, id), id) == RemoveById(events, id)
  {
    FilterIdempotent(events, (e: Event) => e.id != id);
  }

  // ---------------------------------------------------------------------------
  // Busy slots
  // ---------------------------------------------------------------------------

  /**
   * `new Date(e.start) <= new Date(candidate) && new Date(candidate) < new Date(e.end)`.
   * An Invalid Date on any side makes it false.
   */
  predicate Covers(e: Event, candidate: string): (covers: bool)
    ensures covers ==> Parse(e.start).Some? && Parse(e.end).Some? && Parse(candidate).Some?
  {
    AtOrBefore(Instant(e.start), Instant(candidate)) && Before(Instant(candidate), Instant(e.end))
  }

  /** On well-formed strings, an event covers a candidate exactly when the candidate is not earlier than its start and is earlier than its end. */
  lemma CoversByFields(e: Event, candidate: string)
    requires Parse(e.start).Some? && Parse(e.end).Some? && Parse(candidate).Some?
    ensures Covers(e, candidate) <==>
              !Earlier(Parse(candidate).value, Parse(e.start).value) && Earlier(Parse(candidate).value, Parse(e.end).value)
  {
    InstantOrder(candidate, e.start);
    InstantOrder(candidate, e.end);
  }

  /** `events.some(...)`: some event's half-open interval `[start, end)` holds the candidate. */
  function Busy(events: seq<Event>, candidate: string): (busy: bool)
    ensures busy <==> exists i :: 0 <= i < |events| && Covers(events[i], candidate)
  {
    if events == [] then false
    else Covers(events[0], candidate) || Busy(events[1..], candidate)
  }

  /** Appending an event can only turn a free slot busy, never a busy one free. */
  lemma {:induction false} BusyAppend(events: seq<Event>, e: Event, candidate: string)
    ensures Busy(events + [e], candidate) <==> Busy(events, candidate) || Covers(e, candidate)
  {
    var all := events + [e];
    assert all[|events|] == e;
    assert forall i :: 0 <= i < |events| ==> all[i] == events[i];
  }

  /**
   * After deleting an id, a candidate that only events with that id covered
   * is free.
   */
  lemma RemoveFreesSlot(events: seq<Event>, id: int, candidate: string)
    requires forall e :: e in events && Covers(e, candidate) ==> e.id == id
    ensures !Busy(RemoveById(events, id), candidate)
  {
    var r := RemoveById(events, id);
    forall i | 0 <= i < |r|
      ensures !Covers(r[i], candidate)
    {
      assert r[i] in r;
    }
  }
}
