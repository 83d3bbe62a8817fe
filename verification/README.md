# DE-ECO admin dashboard: the form and list logic of its screens

The DE-ECO admin dashboard is a set of CRUD screens over a hosted table store:
live classes, courses, Market Pulse reels, class recordings, class notes, class
enrollments and class announcements. Every screen keeps a form draft, deletes
rows and re-fetches its list after each change. Every screen but enrollments
builds an insert or update payload from its draft; the enrollments screen only
inserts. The recordings, notes and enrollments screens resolve user and class
ids to display names; the live classes screen resolves only user ids; the
courses, Market Pulse and announcements screens resolve none.

This project models the pure logic inside those screens as immutable Dafny
datatypes and total functions:

- how a draft becomes a payload (empty text becomes `null` or a default, a
  textarea becomes a list of non-empty lines, and an announcement's scope
  becomes `target_audience` / `class_id`);
- how a stored row pre-fills the draft on edit;
- the required-field checks that decide whether a request is sent at all;
- the id → name / title lookups with their "—" fallback, the enrollment
  search and the de-duplicated eligible-user ids;
- each screen's form controller. It decides update or insert by `editingId`
  and either gates a delete on a confirmation or does not. What happens after
  the store answers differs by screen:
  - the courses, Market Pulse, recordings, notes and enrollments screens keep
    the form on error and close and reset it on success;
  - the live classes panel is hidden whatever the store answers, shows no
    error, and keeps its draft and `editingId`;
  - the announcements form never closes; it is reset on success and kept on
    error.

Required fields are checked without trimming. A list fetch whose error is
checked keeps the old list on failure; one whose error is ignored empties it.

The store, the clock and the browser's `confirm` are inputs. A submit
handler's result is a `Crud.Step`: the screen's next state plus an `Effect`. The
`Effect` records the request sent, the message shown with `alert`, and
whether the list is re-fetched.

Modules: `Wrappers` (`Option`), `Seqs` (filter, find, distinct),
`Text` (split/join, trim, lower-case, includes, slice), `Numbers`
(`Number()` and `toString()` on whole numbers), `Crud` (the shared
controller pieces), `Lookup` (name and title resolvers), and one module per
screen: `LiveClasses`, `AdminCourses`, `MarketPulse`, `ClassRecordings`,
`ClassNotes`, `ClassEnrollments`, `ClassAnnouncements`.

## Model

| member | source | states |
|---|---|---|
| Seqs.Filter | src/components/ClassEnrollments.tsx:159-160 | `filter` keeps exactly the elements satisfying the predicate, each as often as it occurs in the input and none of the others, as an order-preserving subsequence; if every element satisfies it, the input comes back whole |
| Seqs.Distinct | src/components/LiveClasses.tsx:79-81 | `Array.from(new Set(ids))` has no duplicates, holds exactly the values of the input, and is empty only for an empty input |
| Seqs.DistinctSameValues | src/components/LiveClasses.tsx:79-81 | two id lists with the same values, in any order and with any repetition, give the same distinct ids, and the same number of them |
| Seqs.FindFirst | src/components/LiveClasses.tsx:121 | the index of the first element satisfying the predicate, as `find` locates it, and nothing exactly when no element does |
| Text.Split | src/components/AdminCourses.tsx:89 | `split('\n')` gives at least one part, no part contains the separator, and joining the parts gives the text back |
| Text.SplitJoin | src/components/AdminCourses.tsx:125-126 | splitting a newline-joined non-empty list whose items contain no newline gives the list back |
| Text.Join | src/components/AdminCourses.tsx:125-126 | `join('\n')` of no parts is "" and otherwise starts with the first part |
| Text.JoinSeparatorCount | src/components/AdminCourses.tsx:125-126 | joining parts free of the separator puts exactly one separator between neighbours: one fewer than there are parts |
| Text.Lines | src/components/AdminCourses.tsx:88-93 | a textarea becomes its non-empty lines, in order and with their repetitions: each non-empty line occurs as often as in the split text, no item is "" or holds a newline, blank-only lines are kept, and "" gives [] |
| Text.Trim | src/components/LiveClasses.tsx:122 | `trim` removes only blanks, and only from the two ends; the result neither starts nor ends with a blank |
| Text.Lower | src/components/ClassEnrollments.tsx:159-167 | `toLowerCase` keeps the length and maps each character on its own, A-Z to a-z |
| Text.Includes | src/components/ClassEnrollments.tsx:159-167 | `includes` holds iff the term occurs at some position; the empty term is included in every string; a term longer than the text is never included; one of equal length only when it equals the text |
| Text.Prefix | src/components/AdminCourses.tsx:122 | `slice(0, n)` is the prefix of length min(n, length) |
| Numbers.NumberOf | src/components/AdminCourses.tsx:81-83 | `Number('')` is 0; a string with a non-digit is NaN |
| Numbers.Show | src/components/AdminCourses.tsx:120 | `toString` of a whole number is a non-empty decimal numeral without leading zeros |
| Numbers.ShowRoundTrip | src/components/LiveClasses.tsx:157 | parsing a printed whole number gives the number back |
| Numbers.NumberOrNull | src/components/AdminCourses.tsx:86 | `s ? Number(s) : null` is `null` exactly for "" and `Number(s)` otherwise |
| Numbers.ShowOrEmpty | src/components/AdminCourses.tsx:123 | `n?.toString() ?? ''` is "" exactly for `null` and otherwise a numeral |
| Numbers.NullableNumberRoundTrip | src/components/MarketPulse.tsx:82-84 | a nullable number pre-filled as text and submitted again comes back unchanged |
| Crud.OrEmpty | src/components/ClassRecordings.tsx:139 | `x ?? ''` is "" for `null` and the value otherwise |
| Crud.Reject | src/components/ClassRecordings.tsx:106-109 | a failed required-field check alerts its message and returns early: nothing is sent, nothing re-fetched, the form kept |
| Crud.NullIfEmpty | src/components/ClassRecordings.tsx:112 | the "empty string or null" idiom is `null` exactly when `s` is "" and `s` otherwise |
| Crud.NullableRoundTrip | src/components/ClassRecordings.tsx:139 | pre-filling `null` as "" and turning "" back into `null` gives a nullable text back, except that a stored "" returns as `null` |
| Crud.SaveRequest | src/components/AdminCourses.tsx:97-102 | a truthy `editingId` gives an update of that id, anything else an insert, always with the same payload |
| Crud.Save | src/components/AdminCourses.tsx:97-110 | the save request is sent; on error the message is alerted and the form is left exactly as it was; on success the form becomes the closed one and the list is re-fetched |
| Crud.ShowForm | src/components/AdminCourses.tsx:184 | the "New" button shows the form and leaves the draft and `editingId` as they are |
| Crud.DeleteChecked | src/components/AdminCourses.tsx:139-149 | the delete is sent; the list is re-fetched exactly when it succeeded; an error is alerted |
| Crud.Confirmed | src/components/AdminCourses.tsx:137 | a declined `confirm` sends nothing, alerts nothing and re-fetches nothing |
| Crud.Reload | src/components/AdminCourses.tsx:58-70 | a fetch whose error is checked keeps the list on error and otherwise takes `data ?? []` |
| Crud.ReloadUnchecked | src/components/LiveClasses.tsx:106-116 | a fetch whose error is ignored takes `data ?? []`, so a failure empties the list |
| Lookup.FullName | src/components/ClassRecordings.tsx:187 | the display name is "first last", with a `null` part read as "", stripped of the blanks at both ends and only of those; two `null` parts give "" |
| Text.TrimUnique | src/components/LiveClasses.tsx:122 | an infix surrounded only by blanks that neither starts nor ends with a blank is the `trim` of the text |
| Lookup.FullNameOfFirstOnly | src/components/ClassRecordings.tsx:187 | a trimmed first name with a `null` or empty last name is shown alone |
| Lookup.FullNameOfLastOnly | src/components/ClassRecordings.tsx:187 | a trimmed last name with a `null` or empty first name is shown alone |
| Lookup.FullNameOfTrimmedParts | src/components/LiveClasses.tsx:122 | two present, already trimmed parts are shown as "first last" |
| Lookup.UserName | src/components/LiveClasses.tsx:120-123 | an id no profile has gives "—"; otherwise the name of the first profile with that id (same code in the notes, recordings and enrollments screens) |
| Lookup.ClassTitle | src/components/ClassEnrollments.tsx:149-151 | a `null` id or an id no class has gives "—"; otherwise the title of the first class with that id |
| Lookup.OptionalClassTitle | src/components/ClassRecordings.tsx:179-182 | a `null` or empty id gives "—" before any lookup; any other id is looked up (same code at ClassNotes.tsx:175-178) |
| LiveClasses.Reset | src/components/LiveClasses.tsx:125-136 | not editing, custom duration off, instructor "Rishika", the default meeting link, duration "60", every other field "" |
| LiveClasses.OpenCreate | src/components/LiveClasses.tsx:140-143 | create opens the panel on the reset form |
| LiveClasses.OpenEdit | src/components/LiveClasses.tsx:145-161 | the custom-duration flag is set iff the duration is not one of 30, 60, 90, 120, 150, 180; an empty instructor pre-fills "Rishika"; a `null` link pre-fills the default link; the duration text parses back to the stored minutes |
| LiveClasses.PickPreset | src/components/LiveClasses.tsx:367-373 | a preset clears the custom flag and sets the duration to that preset; nothing else changes |
| LiveClasses.PickOther | src/components/LiveClasses.tsx:386-391 | "Other" sets the custom flag and clears the duration to ""; nothing else changes |
| LiveClasses.ClosePanel | src/components/LiveClasses.tsx:284 | the close button hides the panel and keeps `editingId`, the flag and the draft |
| LiveClasses.ToRow | src/components/LiveClasses.tsx:166-173 | the payload copies the texts, carries the converted start time, and `Number()` of the duration |
| LiveClasses.Submit | src/components/LiveClasses.tsx:163-181 | when the start time cannot be converted (`toISOString` throws at line 171) nothing is sent, nothing re-fetched and the panel stays as it was; otherwise an update of `editingId` when editing and an insert otherwise, and the panel is hidden and the list re-fetched whatever the store answers; nothing is ever alerted |
| LiveClasses.SubmitWithoutStartTime | src/components/LiveClasses.tsx:140-181 | submitting a fresh create panel whose start time is still "" sends nothing and leaves the panel open on its default draft |
| LiveClasses.EditThenSubmit | src/components/LiveClasses.tsx:145-181 | editing a class and submitting unchanged sends an update of that class: an empty instructor goes back as "Rishika", a `null` link as the default link, the start time through both date conversions, and the duration unchanged, preset or custom; where the conversion throws, nothing is sent and the panel stays open; only when no default applies and the conversions give the time back is the class sent as stored |
| LiveClasses.Remove | src/components/LiveClasses.tsx:184-188 | no request without confirmation; with it, the delete is sent and the list re-fetched |
| LiveClasses.RefreshUsers | src/components/LiveClasses.tsx:68-101 | a failed enrollment fetch keeps the users; no enrollments give [] with no profile query; otherwise profiles are queried for exactly the distinct enrolled ids, and a failed profile fetch keeps the users |
| LiveClasses.EligibleIdsOrderFree | src/components/LiveClasses.tsx:79-93 | the profile query and resulting users depend only on which ids occur among the enrollments |
| AdminCourses.ToRow | src/components/AdminCourses.tsx:77-95 | empty thumbnail, deadline and instructor become `null`; empty weeks and price become `null`, otherwise `Number()`; each list is exactly the `Lines` of its textarea; title, description, level and active flag are copied |
| AdminCourses.Submit | src/components/AdminCourses.tsx:74-111 | update when editing, insert otherwise; an error keeps the form and `editingId`; success resets to level "beginner", active, all texts "", alerts nothing and re-fetches; an error alerts its message |
| AdminCourses.Edit | src/components/AdminCourses.tsx:115-132 | `null` texts and lists pre-fill "", lists are newline-joined, numbers printed, the deadline cut to 10 characters |
| AdminCourses.ListText | src/components/AdminCourses.tsx:125-126 | `xs?.join('\n') ?? ''` is "" for a `null` list and the newline join of the items otherwise |
| AdminCourses.ListRoundTrip | src/components/AdminCourses.tsx:125-126 | a `null` list comes back as [], and a list without "" items or newlines inside items comes back unchanged |
| AdminCourses.EditThenSubmit | src/components/AdminCourses.tsx:77-126 | editing a course and submitting unchanged updates it with its own columns, except that a `null` list is sent as [], provided no optional text is stored as "", the deadline has at most 10 characters and every stored list item is non-empty and free of newlines |
| AdminCourses.EditThenSubmitCutsDeadline | src/components/AdminCourses.tsx:122 | a stored deadline of 10 or more characters is sent back as its first 10 |
| AdminCourses.Remove | src/components/AdminCourses.tsx:136-150 | no request without confirmation; an error is alerted and the list is then not re-fetched; success re-fetches without an alert |
| MarketPulse.ToRow | src/components/MarketPulse.tsx:77-91 | empty thumbnail and duration become `null`; an empty view count becomes 0; an empty tag becomes "General"; an empty publication time becomes the submit time |
| MarketPulse.ViewCountDefault | src/components/MarketPulse.tsx:85-87 | the view count sent is always `Number()` of its text, the 0 default included |
| MarketPulse.InitialAndClosedDrafts | src/components/MarketPulse.tsx:38-48 | the starting draft has tag "" and the `closeForm` draft (lines 150-164) tag "General"; they differ only there and give the same payload |
| MarketPulse.Submit | src/components/MarketPulse.tsx:74-108 | update when editing, insert otherwise; an error keeps the form and alerts its message; success closes it, alerts nothing and re-fetches |
| MarketPulse.Edit | src/components/MarketPulse.tsx:112-127 | `null` thumbnail and duration pre-fill "", the view count is printed, and the publication time is cut to 16 characters |
| MarketPulse.EditThenSubmit | src/components/MarketPulse.tsx:77-127 | editing a reel and submitting unchanged sends its own columns, except that the publication time is cut to its first 16 characters (or is the submit time when none is stored), a thumbnail stored as "" goes back as `null`, and an empty tag as "General"; outside those three cases it comes back unchanged exactly when its publication time has at most 16 characters, so a `toISOString()` time (line 88) loses its seconds and zone |
| MarketPulse.Remove | src/components/MarketPulse.tsx:131-146 | no request without confirmation; an error is alerted and the list is then not re-fetched; success re-fetches without an alert |
| ClassRecordings.ToRow | src/components/ClassRecordings.tsx:111-116 | an empty class becomes `null`; user, title and video URL are copied |
| ClassRecordings.Submit | src/components/ClassRecordings.tsx:102-133 | a request is sent iff user, title and video URL are non-empty (no trimming); otherwise an alert and the form stays; a store error keeps the draft and alerts its message; success resets to all "" with no `editingId`, alerts nothing and re-fetches |
| ClassRecordings.Edit | src/components/ClassRecordings.tsx:137-147 | a `null` class pre-fills "", other fields are copied, `editingId` is the recording's id |
| ClassRecordings.EditThenSubmit | src/components/ClassRecordings.tsx:102-147 | for a recording whose class is not stored as "", editing and submitting unchanged sends a request iff user, title and video URL are non-empty, and then exactly its four columns as an update; otherwise the required-field message is alerted |
| ClassRecordings.Remove | src/components/ClassRecordings.tsx:151-164 | the delete is sent with no confirmation; an error is alerted and not re-fetched; success re-fetches without an alert |
| ClassNotes.ToRow | src/components/ClassNotes.tsx:112-117 | an empty class becomes `null`; user, title and file URL are copied |
| ClassNotes.Submit | src/components/ClassNotes.tsx:103-134 | a request is sent iff user, title and file URL are non-empty (no trimming); otherwise an alert and the form stays; a store error keeps the draft and alerts its message; success resets to all "" with no `editingId`, alerts nothing and re-fetches |
| ClassNotes.Updated | src/components/ClassNotes.tsx:112-117 | the payload names only class, user, title and file URL, so an update replaces those and keeps the id and `uploaded_by` |
| ClassNotes.Edit | src/components/ClassNotes.tsx:138-148 | a `null` class pre-fills "", other fields are copied, `editingId` is the note's id |
| ClassNotes.EditThenSubmit | src/components/ClassNotes.tsx:103-148 | for a note whose class is not stored as "", editing and submitting unchanged sends a request iff user, title and file URL are non-empty, and then an update that leaves the note exactly as it was, `uploaded_by` included; otherwise the required-field message is alerted |
| ClassNotes.Remove | src/components/ClassNotes.tsx:152-165 | the delete is sent with no confirmation; an error is alerted and not re-fetched; success re-fetches without an alert |
| ClassEnrollments.ToRow | src/components/ClassEnrollments.tsx:105-108 | an empty class becomes `null`; the user is copied |
| ClassEnrollments.Close | src/components/ClassEnrollments.tsx:144-147 | closing hides the form and clears both selects |
| ClassEnrollments.Submit | src/components/ClassEnrollments.tsx:97-122 | an insert is sent iff a user is selected, and never an update; an error keeps the form and alerts its message; success hides and clears it, alerts nothing and re-fetches |
| ClassEnrollments.Remove | src/components/ClassEnrollments.tsx:127-140 | the delete is sent with no confirmation; an error is alerted and not re-fetched; success re-fetches without an alert |
| ClassEnrollments.Visible | src/components/ClassEnrollments.tsx:159-167 | an enrollment is kept iff the lower-cased term occurs in its lower-cased class title or user name; the result is an order-preserving subsequence holding each matching row as often as the list does; an empty term keeps every row |
| ClassAnnouncements.ToRow | src/components/ClassAnnouncements.tsx:70-80 | scope "all" gives audience "all" and class `null`, any other scope gives "class" and that class; title, message and priority are copied; type is "general" and the row is active |
| ClassAnnouncements.Reset | src/components/ClassAnnouncements.tsx:126-134 | not editing, scope "all", priority "medium", empty title and message |
| ClassAnnouncements.Begin | src/components/ClassAnnouncements.tsx:66-89 | with the button enabled, `loading` is set and an update (when editing) or insert is sent; while `loading`, nothing is sent (line 203) |
| ClassAnnouncements.Finish | src/components/ClassAnnouncements.tsx:91-99 | `loading` is cleared on both outcomes; an error keeps the form and `editingId`; success resets and re-fetches |
| ClassAnnouncements.SubmitLoadingFlag | src/components/ClassAnnouncements.tsx:68-91 | `loading` is true while the request is in flight and false after it, and a failed save returns the board it started from |
| ClassAnnouncements.Edit | src/components/ClassAnnouncements.tsx:103-111 | a `null` class pre-fills the "all" option; the other fields are copied |
| ClassAnnouncements.EditThenSubmit | src/components/ClassAnnouncements.tsx:70-111 | for a class id other than "all", editing and saving unchanged sends back the class and the audience it implies |
| ClassAnnouncements.EditThenSubmitAllClass | src/components/ClassAnnouncements.tsx:106 | a class whose id is "all" cannot be told from the "all" option and loses its class on save |
| ClassAnnouncements.Remove | src/components/ClassAnnouncements.tsx:114-123 | no request without confirmation; the list is re-fetched only when the delete succeeded; nothing is alerted |

## Left out

- The table store itself: select filters, ordering, `in` queries and counting. Each store answer is an input (`Crud.Outcome` or `Crud.Response`).
- Date and time conversion in the live classes panel (`toISOString().slice(0, 16)` on edit, `new Date(local).toISOString()` on submit). These are the function parameters `toLocalInput` and `toIso`, because they depend on the time zone. `toIso` returns `None` where `toISOString` throws, and `Submit` then stops before the query.
- LiveClasses.OpenEdit: `toLocalInput` is total, so a stored start time that `new Date` cannot read (where `openEdit` would throw and the panel would not open) is not modelled; the times the panel stores are always valid instants.
- The clock: the Market Pulse default publication time is the parameter `now`.
- Numbers.NumberOf: models `Number()` only on strings of decimal digits (and ""). Fractions, signs, exponents, hex and blank padding, which JavaScript parses, are NaN here, and numbers are unbounded whole numbers rather than doubles.
- Numbers.Show: prints every whole number in plain decimal. JavaScript switches to exponent notation from 10^21 on.
- Text.Trim: removes only the ASCII blanks (space, tab, line feed, carriage return, vertical tab, form feed), not the other Unicode spaces `trim` removes.
- Text.Lower: lower-cases only the ASCII letters, not the full Unicode case mapping of `toLowerCase`.
- The browser dialogs: `confirm` is a boolean input, and `alert` is recorded as `Effect.alert`. `console.error` logging is not modelled.
- The HTML `required` attributes on inputs. The browser enforces them before the submit handler runs, so they belong to the markup and are not modelled.
- The contact messages screen (single-field updates and its per-row in-flight flags), the dashboard statistics, the sidebar, the header and all rendering.
- Profile `email` and reel `description`: these are fetched or stored but never read or edited by the modelled logic.
- Text.Prefix: counts characters as Unicode scalar values, where `slice`, `includes` and `toLowerCase` count UTF-16 code units. The same holds for Text.Lower and Text.Includes. This only matters for text outside the Basic Multilingual Plane; the dates that get cut are ASCII.
- ClassNotes.Updated: assumes the store's update replaces exactly the payload's columns and keeps all others. The store is not part of this model.
- Interleaving of asynchronous handlers: double submits, and answers arriving after the screen is gone.

