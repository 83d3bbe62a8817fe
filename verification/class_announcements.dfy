/** The announcements screen: an always-visible form that posts announcements
    to everybody or to one class, with a `loading` flag that disables the
    submit button while a save is in flight. */
module ClassAnnouncements {
  import opened Wrappers
  import opened Crud

  datatype Priority = High | Medium | Low

  /** `target_audience`: "all" or "class". */
  datatype Audience = Everyone | OneClass

  /** A row of `class_announcements`. */
  datatype Announcement = Announcement(id: string, classId: Option<string>, title: string, message: string, priority: Priority, targetAudience: Audience)

  /** The form: `scope` is the class select, whose first option is "all". */
  datatype Draft = Draft(scope: string, title: string, message: string, priority: Priority)

  /** The payload of an insert or update. */
  datatype Row = Row(title: string, message: string, priority: Priority, kind: string, isActive: bool, targetAudience: Audience, classId: Option<string>)

  /** The screen's state: the id being edited, the in-flight flag and the form. */
  datatype Board = Board(editingId: Option<string>, loading: bool, draft: Draft)

  const AllScope: string := "all"

  const DefaultDraft: Draft := Draft(AllScope, "", "", Medium)

  /** The state on load. */
  const Initial: Board := Board(None, false, DefaultDraft)

  /** The payload: scope "all" posts to everybody with no class; any other
      scope posts to that class. The type is always "general" and the
      announcement is always active. */
  function ToRow(d: Draft): (r: Row)
    ensures d.scope == AllScope ==> r.targetAudience == Everyone && r.classId.None?
    ensures d.scope != AllScope ==> r.targetAudience == OneClass && r.classId == Some(d.scope)
    ensures r.title == d.title && r.message == d.message && r.priority == d.priority
    ensures r.kind == "general" && r.isActive
  {
    var global := d.scope == AllScope;
    Row(d.title, d.message, d.priority, "general", true,
      if global then Everyone else OneClass,
      if global then None else Some(d.scope))
  }

  /** `resetForm`: not editing, default form; the in-flight flag is left alone. */
  function Reset(b: Board): (c: Board)
    ensures c.editingId.None? && c.draft == DefaultDraft && c.loading == b.loading
  {
    Board(None, b.loading, DefaultDraft)
  }

  /** The submit button is enabled only while no save is in flight. */
  predicate CanSubmit(b: Board)
  {
    !b.loading
  }

  /** The first half of `handleSubmit`, up to the store call: `loading` is set
      and the save request is sent. While a save is in flight the button is
      disabled, so nothing happens. */
  function Begin(b: Board): (s: Step<Board, Row>)
    ensures !CanSubmit(b) ==> s.state == b && s.effect.sent.None?
    ensures CanSubmit(b) ==> s.state == b.(loading := true)
    ensures CanSubmit(b) ==> s.effect.sent == Some(SaveRequest(b.editingId, ToRow(b.draft)))
    ensures !s.effect.refetch && s.effect.alert.None?
  {
    if !CanSubmit(b) then Step(b, NoEffect())
    else Step(b.(loading := true), Effect(Some(SaveRequest(b.editingId, ToRow(b.draft))), None, false))
  }

  /** The second half, once the store answers: `loading` is cleared either
      way; an error is alerted and the form and `editingId` are kept; success
      resets the form and re-fetches. */
  function Finish(b: Board, outcome: Outcome): (s: Step<Board, Row>)
    ensures !s.state.loading && s.effect.sent.None?
    ensures outcome.Err? ==> s.state == b.(loading := false) && !s.effect.refetch && s.effect.alert == Some(outcome.message)
    ensures outcome.Ok? ==> s.state == Board(None, false, DefaultDraft) && s.effect.refetch && s.effect.alert.None?
  {
    var idle := b.(loading := false);
    match outcome
    case Err(message) => Step(idle, Effect(None, Some(message), false))
    case Ok => Step(Reset(idle), Effect(None, None, true))
  }

  /** A whole submit from an idle board: `loading` holds while the request is
      in flight and is false again afterwards, whatever the outcome. */
  lemma SubmitLoadingFlag(b: Board, outcome: Outcome)
    requires CanSubmit(b)
    ensures Begin(b).state.loading
    ensures !Finish(Begin(b).state, outcome).state.loading
    ensures outcome.Err? ==> Finish(Begin(b).state, outcome).state == b
  {
  }

  /** `handleEdit`: editing the announcement's id, the form pre-filled, with a
      `null` class shown as the "all" option. The in-flight flag is left alone. */
  function Edit(b: Board, a: Announcement): (c: Board)
    ensures c.editingId == Some(a.id) && c.loading == b.loading
    ensures c.draft.scope == a.classId.GetOr(AllScope)
    ensures c.draft.title == a.title && c.draft.message == a.message && c.draft.priority == a.priority
  {
    Board(Some(a.id), b.loading, Draft(a.classId.GetOr(AllScope), a.title, a.message, a.priority))
  }

  /** The audience an announcement's class implies. */
  function AudienceOf(classId: Option<string>): Audience
  {
    if classId.None? then Everyone else OneClass
  }

  /** Editing an announcement and saving without changes sends back its class
      and the audience that class implies, unless the class id is itself
      "all" (which the form cannot tell from the "all" option). */
  lemma EditThenSubmit(b: Board, a: Announcement)
    requires CanSubmit(b)
    requires a.id != ""
    requires a.classId != Some(AllScope)
    ensures Begin(Edit(b, a)).effect.sent.Some?
    ensures var request := Begin(Edit(b, a)).effect.sent.value;
      request.Update? && request.id == a.id
      && request.row.classId == a.classId
      && request.row.targetAudience == AudienceOf(a.classId)
      && request.row.title == a.title && request.row.message == a.message && request.row.priority == a.priority
  {
  }

  /** A class whose id is "all" loses its class on an unchanged save. */
  lemma EditThenSubmitAllClass(b: Board, a: Announcement)
    requires CanSubmit(b) && a.id != ""
    requires a.classId == Some(AllScope)
    ensures Begin(Edit(b, a)).effect.sent.Some?
    ensures Begin(Edit(b, a)).effect.sent.value.row.classId.None?
  {
  }

  /** `handleDelete`: nothing without confirmation; the list is re-fetched
      only when the delete succeeded, and an error is not shown. */
  function Remove(id: string, confirmed: bool, outcome: Outcome): (e: Effect<Row>)
    ensures !confirmed ==> e.sent.None? && !e.refetch
    ensures confirmed ==> e.sent == Some(Delete(id)) && (e.refetch <==> outcome.Ok?)
    ensures e.alert.None?
  {
    Confirmed(confirmed, Effect(Some(Delete(id)), None, outcome.Ok?))
  }
}
