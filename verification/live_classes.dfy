/** The live classes screen: scheduled sessions assigned to an enrolled user,
    edited in a side panel with preset or custom durations. */
module LiveClasses {
  import opened Wrappers
  import opened Seqs
  import opened Numbers
  import opened Crud
  import opened Lookup

  const DefaultMeetingLink: string := "https://meet.google.com/qzh-kctw-doa"

  const DefaultInstructor: string := "Rishika"

  /** The durations, in minutes, offered as buttons. */
  const DurationOptions: seq<nat> := [30, 60, 90, 120, 150, 180]

  /** A row of `live_classes`. */
  datatype LiveClass = LiveClass(
    id: string,
    userId: string,
    title: string,
    instructorName: string,
    meetingLink: Option<string>,
    scheduledDatetime: string,
    endDatetime: string,
    durationMinutes: nat)

  /** The panel's draft. */
  datatype Draft = Draft(
    userId: string,
    title: string,
    instructorName: string,
    meetingLink: string,
    scheduledDatetime: string,
    durationMinutes: string)

  /** The payload of an insert or update. */
  datatype Row = Row(
    userId: string,
    title: string,
    instructorName: string,
    meetingLink: string,
    scheduledDatetime: string,
    durationMinutes: JsNumber)

  /** The screen's form state: whether the side panel is shown, the id being
      edited, whether the custom-duration input is shown, and the draft. */
  datatype Panel = Panel(open: bool, editingId: Option<string>, customDuration: bool, draft: Draft)

  const DefaultDraft: Draft := Draft("", "", DefaultInstructor, DefaultMeetingLink, "", "60")

  /** The state on load. */
  const Initial: Panel := Panel(false, None, false, DefaultDraft)

  /** `resetForm`: not editing, preset durations, default draft; the panel's
      visibility is left alone. */
  function Reset(p: Panel): (q: Panel)
    ensures q.open == p.open && q.editingId.None? && !q.customDuration
    ensures q.draft.userId == "" && q.draft.title == "" && q.draft.scheduledDatetime == ""
    ensures q.draft.instructorName == DefaultInstructor && q.draft.meetingLink == DefaultMeetingLink
    ensures q.draft.durationMinutes == "60"
  {
    assert Show(60) == "60";
    Panel(p.open, None, false, DefaultDraft)
  }

  /** `openCreate`: reset, then show the panel. */
  function OpenCreate(p: Panel): (q: Panel)
    ensures q.open && q == Reset(p).(open := true)
  {
    Reset(p).(open := true)
  }

  /** `openEdit`: shown, editing the class's id. The custom-duration input is
      shown exactly when the class's duration is not one of the presets; an
      empty instructor becomes the default one and a `null` link the default
      link. `toLocalInput` is the time-zone dependent conversion of the stored
      start time to the input's text. */
  function OpenEdit(c: LiveClass, toLocalInput: string -> string): (q: Panel)
    ensures q.open && q.editingId == Some(c.id)
    ensures q.customDuration <==> c.durationMinutes !in DurationOptions
    ensures q.draft.userId == c.userId && q.draft.title == c.title
    ensures q.draft.instructorName == (if c.instructorName == "" then DefaultInstructor else c.instructorName)
    ensures c.meetingLink.None? ==> q.draft.meetingLink == DefaultMeetingLink
    ensures c.meetingLink.Some? ==> q.draft.meetingLink == c.meetingLink.value
    ensures q.draft.scheduledDatetime == toLocalInput(c.scheduledDatetime)
    ensures NumberOf(q.draft.durationMinutes) == Finite(c.durationMinutes)
  {
    ShowRoundTrip(c.durationMinutes);
    Panel(true, Some(c.id), c.durationMinutes !in DurationOptions, Draft(
      c.userId,
      c.title,
      if c.instructorName != "" then c.instructorName else DefaultInstructor,
      c.meetingLink.GetOr(DefaultMeetingLink),
      toLocalInput(c.scheduledDatetime),
      Show(c.durationMinutes)))
  }

  /** A preset duration button: the custom input is hidden and the duration
      becomes the preset; nothing else changes. */
  function PickPreset(p: Panel, minutes: nat): (q: Panel)
    ensures !q.customDuration
    ensures NumberOf(q.draft.durationMinutes) == Finite(minutes)
    ensures q == p.(customDuration := false, draft := p.draft.(durationMinutes := q.draft.durationMinutes))
  {
    ShowRoundTrip(minutes);
    p.(customDuration := false, draft := p.draft.(durationMinutes := Show(minutes)))
  }

  /** The "Other" button: the custom input is shown and the duration cleared;
      nothing else changes. */
  function PickOther(p: Panel): (q: Panel)
    ensures q.customDuration && q.draft.durationMinutes == ""
    ensures q == p.(customDuration := true, draft := p.draft.(durationMinutes := ""))
  {
    p.(customDuration := true, draft := p.draft.(durationMinutes := ""))
  }

  /** The panel's close button: hides the panel and keeps everything else. */
  function ClosePanel(p: Panel): (q: Panel)
    ensures !q.open && q.editingId == p.editingId && q.customDuration == p.customDuration && q.draft == p.draft
  {
    p.(open := false)
  }

  /** The payload built by `handleSubmit`, given `start`, the input's local
      start time already converted to an ISO instant. */
  function ToRow(d: Draft, start: string): (r: Row)
    ensures r.userId == d.userId && r.title == d.title
    ensures r.instructorName == d.instructorName && r.meetingLink == d.meetingLink
    ensures r.scheduledDatetime == start
    ensures r.durationMinutes == NumberOf(d.durationMinutes)
  {
    Row(d.userId, d.title, d.instructorName, d.meetingLink, start, NumberOf(d.durationMinutes))
  }

  /** `handleSubmit`. `toIso` is the time-zone dependent conversion
      `new Date(local).toISOString()`; it is `None` where that throws, as it
      does for "" and any other invalid time. A throw ends the handler before
      the query: nothing is sent and the panel stays as it was. Otherwise an
      update when editing and an insert otherwise; the store's answer is not
      inspected: the panel is hidden and the list re-fetched whatever it is,
      and the draft and `editingId` are kept. */
  function Submit(p: Panel, toIso: string -> Option<string>): (s: Step<Panel, Row>)
    ensures toIso(p.draft.scheduledDatetime).None? ==> s.state == p && s.effect.sent.None? && !s.effect.refetch
    ensures toIso(p.draft.scheduledDatetime).Some? ==>
              && s.effect.sent == Some(SaveRequest(p.editingId, ToRow(p.draft, toIso(p.draft.scheduledDatetime).value)))
              && s.state == p.(open := false)
              && s.effect.refetch
    ensures s.effect.alert.None?
  {
    match toIso(p.draft.scheduledDatetime)
    case None => Step(p, NoEffect())
    case Some(start) => Step(ClosePanel(p), Effect(Some(SaveRequest(p.editingId, ToRow(p.draft, start))), None, true))
  }

  /** Submitting a freshly opened create panel before a start time is picked:
      the draft's time is "", `new Date("").toISOString()` throws, so nothing
      is sent and the panel stays open on the default draft. */
  lemma SubmitWithoutStartTime(p: Panel, toIso: string -> Option<string>)
    requires toIso("").None?
    ensures Submit(OpenCreate(p), toIso).effect.sent.None?
    ensures Submit(OpenCreate(p), toIso).state == OpenCreate(p)
  {
  }

  /** The class's own edited columns, in payload form, with the defaults the
      panel applies and `start` as the start time. */
  function Columns(c: LiveClass, start: string): Row
  {
    Row(c.userId, c.title, if c.instructorName == "" then DefaultInstructor else c.instructorName,
      c.meetingLink.GetOr(DefaultMeetingLink), start, Finite(c.durationMinutes))
  }

  /** Opening a class for edit and submitting without changes updates it with
      the columns the panel pre-filled: an empty instructor is sent as
      "Rishika", a `null` link as the default link, the start time passes
      through the two date conversions, and the duration comes back whether
      or not it is a preset. Where the second conversion throws, nothing is
      sent and the panel stays open. Only when no default applies and the
      conversions give the time back is the class sent as it was stored. */
  lemma EditThenSubmit(c: LiveClass, toLocalInput: string -> string, toIso: string -> Option<string>)
    requires c.id != ""
    ensures toIso(toLocalInput(c.scheduledDatetime)).None? ==>
              && Submit(OpenEdit(c, toLocalInput), toIso).effect.sent.None?
              && Submit(OpenEdit(c, toLocalInput), toIso).state.open
    ensures toIso(toLocalInput(c.scheduledDatetime)).Some? ==>
              Submit(OpenEdit(c, toLocalInput), toIso).effect.sent
              == Some(Update(c.id, Columns(c, toIso(toLocalInput(c.scheduledDatetime)).value)))
    ensures c.instructorName != "" && c.meetingLink.Some? && toIso(toLocalInput(c.scheduledDatetime)) == Some(c.scheduledDatetime) ==>
              Submit(OpenEdit(c, toLocalInput), toIso).effect.sent
              == Some(Update(c.id, Row(c.userId, c.title, c.instructorName, c.meetingLink.value, c.scheduledDatetime, Finite(c.durationMinutes))))
  {
  }

  /** `handleDelete`: nothing without confirmation; otherwise the delete is
      sent and the list re-fetched, the store's answer not inspected. */
  function Remove(id: string, confirmed: bool): (e: Effect<Row>)
    ensures !confirmed ==> e.sent.None? && !e.refetch
    ensures confirmed ==> e.sent == Some(Delete(id)) && e.refetch
    ensures e.alert.None?
  {
    Confirmed(confirmed, Effect(Some(Delete(id)), None, true))
  }

  /** The outcome of `fetchEligibleUsers`: the new user list and, when the
      profiles were queried, the ids they were queried for. */
  datatype UserRefresh = UserRefresh(users: seq<Profile>, lookup: Option<seq<string>>)

  /** `fetchEligibleUsers`: the distinct user ids of the enrollment rows; none
      gives an empty list without querying profiles; otherwise the profiles
      with those ids. A failed fetch at either step leaves the list as it was. */
  function RefreshUsers(users: seq<Profile>, enrolled: Response<string>, profiles: Response<Profile>): (r: UserRefresh)
    ensures enrolled.error.Some? || enrolled.data.None? ==> r == UserRefresh(users, None)
    ensures enrolled.error.None? && enrolled.data == Some([]) ==> r == UserRefresh([], None)
    ensures enrolled.error.None? && enrolled.data.Some? && |enrolled.data.value| > 0 ==>
      && r.lookup.Some?
      && NoDuplicates(r.lookup.value)
      && (forall id :: id in r.lookup.value <==> id in enrolled.data.value)
      && (profiles.error.Some? ==> r.users == users)
      && (profiles.error.None? ==> r.users == profiles.data.GetOr([]))
  {
    if enrolled.error.Some? || enrolled.data.None? then UserRefresh(users, None)
    else
      var ids := Distinct(enrolled.data.value);
      if |ids| == 0 then UserRefresh([], None)
      else UserRefresh(Reload(users, profiles), Some(ids))
  }

  /** The profile query depends only on which user ids occur among the
      enrollments, not on their order or repetition. */
  lemma EligibleIdsOrderFree(users: seq<Profile>, a: seq<string>, b: seq<string>, profiles: Response<Profile>)
    requires forall id :: id in a <==> id in b
    ensures var ra := RefreshUsers(users, Response(Some(a), None), profiles);
      var rb := RefreshUsers(users, Response(Some(b), None), profiles);
      && ra.users == rb.users
      && ra.lookup.Some? == rb.lookup.Some?
      && (ra.lookup.Some? ==> |ra.lookup.value| == |rb.lookup.value| && forall id :: id in ra.lookup.value <==> id in rb.lookup.value)
  {
    DistinctSameValues(a, b);
  }
}
