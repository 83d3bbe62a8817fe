/** The class recordings screen: recordings belong to a user, optionally to a
    class, and carry a title and a video URL. */
module ClassRecordings {
  import opened Wrappers
  import opened Crud

  /** A row of `class_recordings`. */
  datatype Recording = Recording(id: string, classId: Option<string>, userId: string, title: string, videoUrl: string)

  /** The form's draft: every field is the text of an input. */
  datatype Draft = Draft(classId: string, userId: string, title: string, videoUrl: string)

  /** The payload of an insert or update. */
  datatype Row = Row(classId: Option<string>, userId: string, title: string, videoUrl: string)

  const EmptyDraft: Draft := Draft("", "", "", "")

  /** The state on load and after `closeForm`: hidden, not editing, empty draft. */
  const Closed: Form<Draft> := Form(false, None, EmptyDraft)

  const RequiredMessage: string := "User, title and video URL are required"

  /** The required-field check: user, title and video URL are non-empty. It
      does not trim, so a value made of blanks passes. */
  predicate Complete(d: Draft)
  {
    d.userId != "" && d.title != "" && d.videoUrl != ""
  }

  /** The payload: an empty class becomes `null`, the rest is copied. */
  function ToRow(d: Draft): (r: Row)
    ensures r.classId.None? <==> d.classId == ""
    ensures r.classId.Some? ==> r.classId.value == d.classId
    ensures r.userId == d.userId && r.title == d.title && r.videoUrl == d.videoUrl
  {
    Row(NullIfEmpty(d.classId), d.userId, d.title, d.videoUrl)
  }

  /** `handleSubmit`: an incomplete draft is rejected before any request; a
      complete one is saved as an update when editing and an insert otherwise;
      an error keeps the form as it was, success closes and clears it. */
  function Submit(form: Form<Draft>, outcome: Outcome): (s: Step<Form<Draft>, Row>)
    ensures s.effect.sent.Some? <==> Complete(form.draft)
    ensures !Complete(form.draft) ==> s.state == form && !s.effect.refetch && s.effect.alert == Some(RequiredMessage)
    ensures Complete(form.draft) ==> s.effect.sent == Some(SaveRequest(form.editingId, ToRow(form.draft)))
    ensures Complete(form.draft) && outcome.Err? ==> s.state == form && !s.effect.refetch && s.effect.alert == Some(outcome.message)
    ensures Complete(form.draft) && outcome.Ok? ==> s.state == Closed && s.effect.refetch && s.effect.alert.None?
  {
    if !Complete(form.draft) then Reject(form, RequiredMessage)
    else Save(form, ToRow(form.draft), outcome, Closed)
  }

  /** `handleEdit`: the form is shown, pre-filled from the recording, with its
      id as `editingId`; a `null` class becomes "". */
  function Edit(r: Recording): (f: Form<Draft>)
    ensures f.open && f.editingId == Some(r.id)
    ensures f.draft.classId == OrEmpty(r.classId)
    ensures f.draft.userId == r.userId && f.draft.title == r.title && f.draft.videoUrl == r.videoUrl
  {
    Form(true, Some(r.id), Draft(OrEmpty(r.classId), r.userId, r.title, r.videoUrl))
  }

  /** The recording's own columns, in payload form. */
  function Columns(r: Recording): Row
  {
    Row(r.classId, r.userId, r.title, r.videoUrl)
  }

  /** Editing a recording and submitting without changes sends a request
      exactly when its user, title and video URL are all non-empty, and that
      request updates the recording with exactly its own four columns,
      provided its class is not stored as "" (which would come back as
      `null`). A recording missing a required field is only alerted about. */
  lemma EditThenSubmit(r: Recording, outcome: Outcome)
    requires r.id != ""
    requires r.classId != Some("")
    ensures Submit(Edit(r), outcome).effect.sent.Some? <==> r.userId != "" && r.title != "" && r.videoUrl != ""
    ensures r.userId != "" && r.title != "" && r.videoUrl != "" ==>
              Submit(Edit(r), outcome).effect.sent == Some(Update(r.id, Columns(r)))
    ensures !(r.userId != "" && r.title != "" && r.videoUrl != "") ==>
              Submit(Edit(r), outcome).effect.alert == Some(RequiredMessage)
  {
    NullableRoundTrip(r.classId);
  }

  /** `handleDelete`: no confirmation; the request always goes out. */
  function Remove(id: string, outcome: Outcome): (e: Effect<Row>)
    ensures e.sent == Some(Delete(id))
    ensures e.refetch <==> outcome.Ok?
    ensures outcome.Err? ==> e.alert == Some(outcome.message)
    ensures outcome.Ok? ==> e.alert.None?
  {
    DeleteChecked(id, outcome)
  }
}
