/** The class notes screen: notes belong to a user, optionally to a class, and
    carry a title and a file URL. Who uploaded a note is stored but never
    edited here. */
module ClassNotes {
  import opened Wrappers
  import opened Crud

  /** A row of `class_notes`. */
  datatype Note = Note(id: string, classId: Option<string>, userId: string, uploadedBy: Option<string>, title: string, fileUrl: string)

  /** The form's draft. */
  datatype Draft = Draft(classId: string, userId: string, title: string, fileUrl: string)

  /** The payload of an insert or update; it has no `uploaded_by` column. */
  datatype Row = Row(classId: Option<string>, userId: string, title: string, fileUrl: string)

  const EmptyDraft: Draft := Draft("", "", "", "")

  /** The state on load and after `closeForm`. */
  const Closed: Form<Draft> := Form(false, None, EmptyDraft)

  const RequiredMessage: string := "User, Title, and File URL are required"

  /** The required-field check, without trimming. */
  predicate Complete(d: Draft)
  {
    d.userId != "" && d.title != "" && d.fileUrl != ""
  }

  /** The payload: an empty class becomes `null`, the rest is copied. */
  function ToRow(d: Draft): (r: Row)
    ensures r.classId.None? <==> d.classId == ""
    ensures r.classId.Some? ==> r.classId.value == d.classId
    ensures r.userId == d.userId && r.title == d.title && r.fileUrl == d.fileUrl
  {
    Row(NullIfEmpty(d.classId), d.userId, d.title, d.fileUrl)
  }

  /** `handleSubmit`: rejected before any request when incomplete; otherwise
      an update when editing, an insert when not; an error keeps the form,
      success closes and clears it. */
  function Submit(form: Form<Draft>, outcome: Outcome): (s: Step<Form<Draft>, Row>)
    ensures s.effect.sent.Some? <==> Complete(form.draft)
    ensures !Complete(form.draft) ==> s.state == form && !s.effect.refetch && s.effect.alert == Some(RequiredMessage)
    ensures Complete(form.draft) ==> s.effect.sent == Some(SaveRequest(form.editingId, ToRow(form.draft)))
    ensures Complete(form.draft) && outcome.Err? ==> s.state == form && !s.effect.refetch && s.effect.alert == Some(outcome.message)
    ensures Complete(form.draft) && outcome.Ok? ==> s.state == Closed && s.effect.refetch && s.effect.alert.None?
  {
    if !Complete(form.draft) then Reject(form, RequiredMessage)
    else Save(form, ToRow(form.draft), outcome, Closed)
  }

  /** What an update with `row` leaves in the table: the payload's columns are
      replaced and every other column, `uploaded_by` included, is kept. */
  function Updated(n: Note, row: Row): (m: Note)
    ensures m.id == n.id && m.uploadedBy == n.uploadedBy
    ensures m.classId == row.classId && m.userId == row.userId && m.title == row.title && m.fileUrl == row.fileUrl
  {
    n.(classId := row.classId, userId := row.userId, title := row.title, fileUrl := row.fileUrl)
  }

  /** `handleEdit`: shown, pre-filled, editing the note's id. */
  function Edit(n: Note): (f: Form<Draft>)
    ensures f.open && f.editingId == Some(n.id)
    ensures f.draft.classId == OrEmpty(n.classId)
    ensures f.draft.userId == n.userId && f.draft.title == n.title && f.draft.fileUrl == n.fileUrl
  {
    Form(true, Some(n.id), Draft(OrEmpty(n.classId), n.userId, n.title, n.fileUrl))
  }

  /** Editing a note and submitting without changes sends a request exactly
      when its user, title and file URL are all non-empty, and that request
      is an update of the note which leaves it exactly as it was,
      `uploaded_by` included, provided its class is not stored as "" (which
      would come back as `null`). A note missing a required field is only
      alerted about. */
  lemma EditThenSubmit(n: Note, outcome: Outcome)
    requires n.id != ""
    requires n.classId != Some("")
    ensures Submit(Edit(n), outcome).effect.sent.Some? <==> n.userId != "" && n.title != "" && n.fileUrl != ""
    ensures Submit(Edit(n), outcome).effect.sent.Some? ==>
              var request := Submit(Edit(n), outcome).effect.sent.value;
              request.Update? && request.id == n.id && Updated(n, request.row) == n
    ensures !(n.userId != "" && n.title != "" && n.fileUrl != "") ==>
              Submit(Edit(n), outcome).effect.alert == Some(RequiredMessage)
  {
    NullableRoundTrip(n.classId);
  }

  /** `handleDelete`: no confirmation; the request always goes out. */
  function Remove(id: string, outcome: Outcome): (e: Effect<Row>)
    ensures e.sent == Some(Delete(id))
    ensures e.refetch <==> outcome.Ok?
    ensures outcome.Err? ==> e.alert == Some(outcome.message)
    ensures outcome.Ok? ==> e.alert.None?
  {
    DeleteChecked(id, outcome)
  }
}
