# Calendar scheduler: the event list, the busy-slot check and the form state

The repository holds two React calendar components, both named `EventScheduler`:

- `src/component/Event012.jsx` has an add/edit modal with date pickers and time selects.
- `EventCalendar.jsx` has an add popover and click-to-delete.

Both keep an in-memory list of `{id, title, start, end}` events, seeded with a meeting and a workshop. Each user action replaces that list, or the modal or popover record, with a new value. This project models that logic in Dafny:

- **`Events`** (`events.dfy`): the event record and the seed list. It also holds the `filter` and `map` steps the handlers apply, and the busy-slot query behind `isTimeDisabled`. A candidate date-time is busy when some event's half-open interval `[start, end)` holds it.
- **`Timestamps`** (`timestamps.dfy`): the stand-in for `new Date(...)`. It parses `YYYY-MM-DDTHH:MM` and `YYYY-MM-DDTHH:MM:SS` into chronologically ordered instants. These are the shapes of `Event012.jsx`'s seed events and of the strings its lines 74-75 build. Any other string is an Invalid Date (NaN) here, and every comparison with it is false. `EventCalendar.jsx` stores FullCalendar's `startStr`/`endStr` verbatim, which can be date-only. It never compares them, so the model keeps them as plain strings.
- **`JsStrings`** (`js_strings.dfy`): the JavaScript string operations the handlers use. These are `split('T')`, `substring(0, 5)`, `charAt(0).toUpperCase() + slice(1)`, and `<` on strings.
- **`Event012`** (`event012.dfy`): the modal component. Pure functions give each transition and the save step. The class `EventScheduler` holds `events` and `modal`, with one method per handler.
- **`EventCalendar`** (`event_calendar.dfy`): the popover component. Pure functions give the append and the confirmed delete. The class `EventScheduler` holds `events`, `anchorEl` and `newEvent`.

## Behaviour as written

The model follows the code, including behaviour that looks unintended:

- **Edit-save empties the list.** Saving in edit mode (`Event012.jsx:88-98`) first maps the form over the records with the form's id. It then calls `deleteEventById` with that id. That filter's test compares `modal.event.id` with its own argument and never looks at the element, so it drops every record. `Event012.Saved` states that the result is `[]`.
- **Two guards always pass.** `modal.event !== ''` at line 73 compares an object with a string. `modal.event.id !== ""` at line 96 compares an id with a string. No value the model gives either one is equal to `""`.
- **Add mode does not check the title.** An empty title is still added as an empty title. `EventCalendar.jsx` skips an empty title at line 40.
- **The busy check includes the event being edited.** While an event is being edited, its own start slot shows as disabled (`Event012.OwnStartBusyWhileEditing`).
- **A click can throw.** `handleEventClick` throws when a clicked event's start or end string has no `'T'`. Then `split('T')[1]` is `undefined`, and the state is left unchanged.

In short, `Event012.jsx` does not update an edited event in place; its edit path empties the list. It also does not reject an empty title on add, which `EventCalendar.jsx:40` does.

## Model

| member | source | states |
|---|---|---|
| `Events.Seeds` | src/component/Event012.jsx:13-16 | two events with distinct ids, bounded by valid dates: 10:00 to 12:00 on 2024-01-01 and 14:00 to 16:00 on 2024-01-03 (the same list as `EventCalendar.jsx:13-16`) |
| `Events.Busy` | src/component/Event012.jsx:104-110 | a candidate is busy iff some stored event has `start <= candidate < end` as instants |
| `Events.Covers` | src/component/Event012.jsx:108 | an Invalid Date on any side (start, end or candidate) means the event does not cover the candidate |
| `Events.CoversByFields` | src/component/Event012.jsx:106-109 | on well-formed strings an event covers a slot exactly when the slot is not earlier than its start and is earlier than its end |
| `Events.BusyAppend` | src/component/Event012.jsx:106-109 | appending an event makes busy exactly the old busy slots plus the ones the new event covers |
| `Event012.IsTimeDisabled` | src/component/Event012.jsx:104-110 | a time is disabled iff some stored event covers `date + "T" + time`; an unparsable combination is never disabled |
| `Event012.IsTimeDisabledMonotone` | src/component/Event012.jsx:104-110 | nothing is disabled on an empty list; appending never frees a disabled time and only disables times the new event covers |
| `Event012.SeedSlot` | src/component/Event012.jsx:13-16 | with the seed list, a time is disabled iff it falls in 10:00-12:00 on 2024-01-01 or 14:00-16:00 on 2024-01-03 |
| `Event012.SeedSlots` | src/component/Event012.jsx:104-110 | on the seed list, 10:00 and 11:00 on 2024-01-01 are busy, 12:00 (the meeting's end) and 13:00 are free, and 15:00 on 2024-01-03 is busy |
| `Event012.StandupScenario` | src/component/Event012.jsx:79-87 | adding "standup" 09:00-09:30 on 2024-01-02 appends "Standup" as the third event, and 09:15 goes from free to busy |
| `Event012.SameInstantWithoutSeconds` | src/component/Event012.jsx:41-42 | a stored start with zero seconds denotes the same instant as its date part, `T` and first five time characters put back together |
| `Event012.OwnStartBusyWhileEditing` | src/component/Event012.jsx:104-110 | after clicking a stored event that starts on a whole minute and ends later, the start time in the form is disabled, because the check does not leave out that event |
| `Event012.DatePart` | src/component/Event012.jsx:25 | `split('T')[0]` is the prefix before the first `'T'`, or the whole string |
| `Event012.TimePart` | src/component/Event012.jsx:42-44 | `split('T')[1].substring(0, 5)` exists iff the string has a `'T'`; it is the run of characters right after the first `'T'`, without `'T'`, at most 5 long, and shorter only where the next `'T'` or the end of the string stops it |
| `Event012.PartsOfShaped` | src/component/Event012.jsx:41-44 | for any string starting with `YYYY-MM-DDTHH:MM`, whatever follows (seconds, a zone offset), the date part is `YYYY-MM-DD` and the time part is `HH:MM` |
| `Event012.SelectDate` | src/component/Event012.jsx:24-37 | opens in add mode, start date = date part of the selection; end date cleared iff set and before the new start date in string order; other fields carried over |
| `Event012.ClickEvent` | src/component/Event012.jsx:40-58 | edit mode with the clicked id and title; fails (throws) iff a string lacks `'T'`; the start and end dates are `DatePart` and the times `TimePart` of the clicked strings; each rebuilt date-time is a prefix of the clicked string with a time of at most 5 units |
| `Event012.StartString` | src/component/Event012.jsx:74 | the start string splits back into the form's start date and time when neither holds a `'T'` and the time has at most 5 characters |
| `Event012.EndString` | src/component/Event012.jsx:75 | the start string when an end field is empty; otherwise it splits back into the form's end date and time under the same conditions |
| `Event012.ClickSavedRecord` | src/component/Event012.jsx:40-58 | clicking a record saved from a complete form puts the saved dates and times back into the modal |
| `Event012.NewRecord` | src/component/Event012.jsx:74-87 | the added record has the fresh id, the title capitalised at the same length, start = startDate + "T" + startTime, and end = start when an end field is empty |
| `Event012.ReplaceById` | src/component/Event012.jsx:90-94 | the map keeps length and ids, leaves records with another id unchanged, and gives matching records the form's title, start and end |
| `Event012.DeleteEventById` | src/component/Event012.jsx:68-70 | the filter ignores the element: same id gives `[]`, different id gives the list unchanged |
| `Event012.Saved` | src/component/Event012.jsx:72-101 | add mode appends exactly one record after the unchanged old ones; edit mode leaves the list empty |
| `Event012.EventScheduler.constructor` | src/component/Event012.jsx:13-22 | starts with the seed list and a closed, blank add-mode modal |
| `Event012.EventScheduler.HandleDateSelect` | src/component/Event012.jsx:24-37 | the modal becomes `SelectDate` of the old one; events unchanged |
| `Event012.EventScheduler.HandleEventClick` | src/component/Event012.jsx:40-58 | throws iff a string lacks `'T'` and then changes nothing; otherwise the modal becomes the clicked event's; events unchanged |
| `Event012.EventScheduler.HandleCloseModal` | src/component/Event012.jsx:60-66 | always installs the same closed blank modal (so it is idempotent); events unchanged |
| `Event012.EventScheduler.HandleDeleteEvent` | src/component/Event012.jsx:72-101 | events become `Saved` of the old list and modal; the modal always ends closed and blank |
| `Event012.EventScheduler.HandleTitleChange` | src/component/Event012.jsx:164-166 | only the form's title changes |
| `Event012.EventScheduler.HandleStartDateChange` | src/component/Event012.jsx:179-181 | only the start date changes, to the date part of the picked ISO string or `""` |
| `Event012.EventScheduler.HandleStartTimeChange` | src/component/Event012.jsx:198-200 | only the start time changes |
| `Event012.EventScheduler.HandleEndDateChange` | src/component/Event012.jsx:225-227 | only the end date changes, to the date part of the picked ISO string or `""` |
| `Event012.EventScheduler.HandleEndTimeChange` | src/component/Event012.jsx:244-246 | only the end time changes |
| `EventCalendar.AddPending` | EventCalendar.jsx:39-52 | an empty title leaves the list unchanged; otherwise exactly one event with the pending title, start and end is appended after the unchanged old ones |
| `EventCalendar.DeleteClicked` | EventCalendar.jsx:29-33 | declined: unchanged; confirmed: exactly the events without the id remain, each as often as before, in order, and the list is not longer |
| `EventCalendar.DeleteClickedTwice` | EventCalendar.jsx:31 | deleting an id twice equals deleting it once |
| `EventCalendar.DeleteSeedMeeting` | EventCalendar.jsx:13-16 | confirming deletion of id 1 on the seed list leaves only the workshop; declining leaves both |
| `EventCalendar.EventScheduler.constructor` | EventCalendar.jsx:13-18 | starts with the seed list, no anchor and a blank pending event |
| `EventCalendar.EventScheduler.HandleDateSelect` | EventCalendar.jsx:20-27 | pending event = blank title with the selection's bounds; popover anchored; events unchanged |
| `EventCalendar.EventScheduler.HandleEventClick` | EventCalendar.jsx:29-33 | events become `DeleteClicked` of the old list; anchor and pending event unchanged |
| `EventCalendar.EventScheduler.HandleClosePopover` | EventCalendar.jsx:35-37 | only the anchor is cleared |
| `EventCalendar.EventScheduler.HandleAddEvent` | EventCalendar.jsx:39-52 | events become `AddPending`; the anchor is cleared iff the title is non-empty; the pending event is kept |
| `EventCalendar.EventScheduler.HandleTitleChange` | EventCalendar.jsx:84 | only the pending title changes |
| `Events.RemoveByIdSpec` | EventCalendar.jsx:31 | delete by id never lengthens the list, yields a subsequence, removes exactly the events with that id, keeps every other event as often as it occurred, and is the identity when the id is absent |
| `Events.RemoveById` | EventCalendar.jsx:31 | every event with another id survives as often as it occurs, and none with the clicked id |
| `Events.RemoveByIdIdempotent` | EventCalendar.jsx:31 | filtering out an id twice equals filtering it once |
| `Events.RemoveFreesSlot` | EventCalendar.jsx:31 | after deleting an id, a slot that only events with that id covered is no longer busy |
| `Events.Filter` | EventCalendar.jsx:31 | `filter` keeps exactly the accepted elements, each as often as it occurs, and never lengthens the list |
| `Events.FilterIsSubsequence` | EventCalendar.jsx:31 | `filter` keeps the surviving elements in their original order |
| `Events.FilterConstant` | src/component/Event012.jsx:69 | a test false on every element leaves `[]`; one true on every element leaves the list as it is |
| `Events.Map` | src/component/Event012.jsx:91-93 | `map` keeps the length and applies the function at every position |
| `JsStrings.Split` | src/component/Event012.jsx:25 | `split` yields at least one piece and no piece contains the separator |
| `JsStrings.JoinSplit` | src/component/Event012.jsx:25 | joining the pieces of a split gives back the string |
| `JsStrings.SplitJoin` | src/component/Event012.jsx:25 | splitting the join of separator-free pieces gives back the pieces |
| `JsStrings.FirstPiece` | src/component/Event012.jsx:25 | the first piece is the longest separator-free prefix; there is a second piece iff the separator occurs |
| `JsStrings.Truncate` | src/component/Event012.jsx:42 | `substring(0, n)` is a prefix of length `min(n, length)` |
| `JsStrings.Capitalize` | src/component/Event012.jsx:83 | same length, first unit upper-cased, the rest unchanged, empty stays empty |
| `JsStrings.CapitalizeIdempotent` | src/component/Event012.jsx:83 | capitalising twice equals capitalising once |
| `JsStrings.StringLess` | src/component/Event012.jsx:31 | string `<`: a proper prefix is below the string it starts, and no string is below itself |
| `JsStrings.StringLessTrichotomy` | src/component/Event012.jsx:31 | string `<` is irreflexive, asymmetric and total on distinct strings |
| `JsStrings.StringLessTransitive` | src/component/Event012.jsx:31 | string `<` is transitive |
| `JsStrings.StringLessAt` | src/component/Event012.jsx:31 | two strings that agree up to a position and differ there are ordered by their characters at that position |
| `Event012.DateStringOrder` | src/component/Event012.jsx:31 | on `YYYY-MM-DD` dates, string `<` holds exactly when the first day is chronologically earlier, so the end-date clearing compares days |
| `Timestamps.Parse` | src/component/Event012.jsx:108 | a parsed date-time has all fields in range |
| `Timestamps.ParseFormat` | src/component/Event012.jsx:108 | parsing the formatted form of a date-time gives it back |
| `Timestamps.FormatParse` | src/component/Event012.jsx:108 | a full-length parsable string is the formatted form of what it parses to |
| `Timestamps.SecondsDefaultToZero` | src/component/Event012.jsx:108 | `YYYY-MM-DDTHH:MM` and the same string with `:00` appended are the same date-time |
| `Timestamps.DayNumberOrder` | src/component/Event012.jsx:108 | day numbers order calendar days chronologically, and distinct days get distinct numbers |
| `Timestamps.EncodeOrder` | src/component/Event012.jsx:108 | instants order date-times chronologically (field by field), and distinct date-times get distinct instants |
| `Timestamps.InstantOrder` | src/component/Event012.jsx:108 | for parsable strings, `<` on instants is chronological order and equal instants mean equal date-times |

## Left out

- Rendering: all JSX, the FullCalendar configuration, the MUI popover, text field and buttons, react-datepicker, and the Bootstrap and CSS imports. These are UI handled by libraries whose code is not part of this model.
- Which time options are disabled in the selects (lines 206 and 252 of `Event012.jsx`), `minDate`, and the contents of `../time.json`. These are presentation only; `time.json` is not part of this model. `Event012.IsTimeDisabled` takes any time string.
- `Timestamps.Parse`: this is the model of `new Date(s)`, not the real parser. It accepts only `YYYY-MM-DDTHH:MM` and `YYYY-MM-DDTHH:MM:SS` with fields in range. It treats every other form as an Invalid Date: fractional seconds, zone designators, date-only strings, `24:00`. It does not check month lengths, so `2024-02-30` is accepted. Instants count every month as 31 days, which keeps order but not durations. Local time zones and daylight-saving transitions are not modelled.
- `Date.toISOString()` in the date pickers' `onChange` handlers (lines 180 and 226) is a foreign call. Its result is a parameter of `HandleStartDateChange` and `HandleEndDateChange`.
- Id generation by `Date.now()` (`Event012.jsx:82`, `EventCalendar.jsx:44`). The fresh id is a parameter. Nothing is claimed about id uniqueness, because the code guarantees none.
- `window.confirm` (`EventCalendar.jsx:30`) is the boolean parameter `confirmed`.
- The DOM element `selectInfo.jsEvent.target` is an abstract `Element` value.
- Ids are plain integers compared with ordinary equality. FullCalendar returns ids as strings, so `===` between a stored number and a clicked id may be false in the running program. The model does not capture that difference.
- `Event012.ReplaceById`: the record the source writes in edit mode is `{...modal.event, start, end}`. It also carries the form's `startDate`, `startTime`, `endDate` and `endTime` fields. The model keeps only `id`, `title`, `start` and `end`, and the list is emptied right after anyway.
- Strings are sequences of Unicode scalar values (Dafny `char`), not of UTF-16 code units as in JavaScript. The two agree on the Basic Multilingual Plane, and every string the components build from dates and times is ASCII. A character outside that plane (an emoji, say) is two units in JavaScript and one `char` here, which affects the three members below.
- `JsStrings.Truncate`: `substring(0, 5)` keeps five scalar values, where JavaScript keeps five code units and may split a surrogate pair.
- `JsStrings.StringLess`: JavaScript compares code units, which puts characters beyond U+FFFF below U+E000 to U+FFFF; the model compares scalar values, which puts them above.
- `JsStrings.Capitalize`: `charAt(0)` and `slice(1)` take one scalar value where JavaScript takes one code unit. It upper-cases only ASCII `a`-`z`. JavaScript's `toUpperCase` also maps other letters, and some of those mappings change the length (`ß` becomes `SS`).
- React's batching of state updates. The two queued updates of an edit-save (lines 90 and 97) are applied in order, one after the other. So is the modal reset at line 100.
- An ordering `start <= end` of stored events. Neither component enforces it (`Event012.jsx:74-75` and `EventCalendar.jsx:23-24` store whatever the form or selection holds), so it is not an invariant of the model.
