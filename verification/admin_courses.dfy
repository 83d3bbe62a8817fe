/** The courses screen: catalogue entries with optional numbers, optional
    texts and two lists edited as newline-separated text. */
module AdminCourses {
  import opened Wrappers
  import opened Text
  import opened Numbers
  import opened Crud

  datatype Level = Beginner | Intermediate | Advanced

  /** A row of `courses`. */
  datatype Course = Course(
    id: string,
    title: string,
    description: string,
    level: Level,
    durationWeeks: Option<nat>,
    thumbnailUrl: Option<string>,
    enrollmentDeadline: Option<string>,
    price: Option<nat>,
    instructorName: Option<string>,
    whatYouLearn: Option<seq<string>>,
    prerequisites: Option<seq<string>>,
    isActive: bool)

  /** The form's draft: numbers and lists are held as input text. */
  datatype Draft = Draft(
    title: string,
    description: string,
    level: Level,
    durationWeeks: string,
    thumbnailUrl: string,
    enrollmentDeadline: string,
    price: string,
    instructorName: string,
    whatYouLearn: string,
    prerequisites: string,
    isActive: bool)

  /** The payload of an insert or update. */
  datatype Row = Row(
    title: string,
    description: string,
    level: Level,
    durationWeeks: Option<JsNumber>,
    thumbnailUrl: Option<string>,
    enrollmentDeadline: Option<string>,
    price: Option<JsNumber>,
    instructorName: Option<string>,
    whatYouLearn: seq<string>,
    prerequisites: seq<string>,
    isActive: bool)

  /** The draft on load and after `closeForm`. */
  const EmptyDraft: Draft := Draft("", "", Beginner, "", "", "", "", "", "", "", true)

  /** The state on load and after `closeForm`. */
  const Closed: Form<Draft> := Form(false, None, EmptyDraft)

  /** The payload built by `handleSubmit`. */
  function ToRow(d: Draft): (r: Row)
    ensures r.title == d.title && r.description == d.description
    ensures r.level == d.level && r.isActive == d.isActive
    ensures r.durationWeeks.None? <==> d.durationWeeks == ""
    ensures r.durationWeeks.Some? ==> r.durationWeeks.value == NumberOf(d.durationWeeks)
    ensures r.price.None? <==> d.price == ""
    ensures r.price.Some? ==> r.price.value == NumberOf(d.price)
    ensures r.thumbnailUrl.None? <==> d.thumbnailUrl == ""
    ensures r.thumbnailUrl.Some? ==> r.thumbnailUrl.value == d.thumbnailUrl
    ensures r.enrollmentDeadline.None? <==> d.enrollmentDeadline == ""
    ensures r.enrollmentDeadline.Some? ==> r.enrollmentDeadline.value == d.enrollmentDeadline
    ensures r.instructorName.None? <==> d.instructorName == ""
    ensures r.instructorName.Some? ==> r.instructorName.value == d.instructorName
    ensures forall i :: 0 <= i < |r.whatYouLearn| ==> r.whatYouLearn[i] != ""
    ensures forall i :: 0 <= i < |r.prerequisites| ==> r.prerequisites[i] != ""
    ensures d.whatYouLearn == "" ==> r.whatYouLearn == []
    ensures d.prerequisites == "" ==> r.prerequisites == []
    ensures r.whatYouLearn == Lines(d.whatYouLearn) && r.prerequisites == Lines(d.prerequisites)
  {
    Row(
      d.title,
      d.description,
      d.level,
      NumberOrNull(d.durationWeeks),
      NullIfEmpty(d.thumbnailUrl),
      NullIfEmpty(d.enrollmentDeadline),
      NumberOrNull(d.price),
      NullIfEmpty(d.instructorName),
      Lines(d.whatYouLearn),
      Lines(d.prerequisites),
      d.isActive)
  }

  /** `handleSubmit`: an update when editing, an insert otherwise; an error
      keeps the form as it was, success closes and clears it and re-fetches. */
  function Submit(form: Form<Draft>, outcome: Outcome): (s: Step<Form<Draft>, Row>)
    ensures s.effect.sent == Some(SaveRequest(form.editingId, ToRow(form.draft)))
    ensures outcome.Err? ==> s.state == form && !s.effect.refetch && s.effect.alert == Some(outcome.message)
    ensures outcome.Ok? ==> s.state == Closed && s.effect.refetch && s.effect.alert.None?
  {
    Save(form, ToRow(form.draft), outcome, Closed)
  }

  /** `xs?.join('\n') ?? ''`: a nullable list as textarea text. */
  function ListText(xs: Option<seq<string>>): (t: string)
    ensures xs.None? ==> t == ""
    ensures xs.Some? ==> t == Join(xs.value, Newline)
  {
    match xs
    case None => ""
    case Some(items) => Join(items, Newline)
  }

  /** `handleEdit`: shown, editing the course's id, pre-filled with `null`s
      as "", numbers printed, lists joined by newlines and the deadline cut
      to its first 10 characters (the date part). */
  function Edit(c: Course): (f: Form<Draft>)
    ensures f.open && f.editingId == Some(c.id)
    ensures f.draft.title == c.title && f.draft.description == c.description
    ensures f.draft.level == c.level && f.draft.isActive == c.isActive
    ensures f.draft.durationWeeks == ShowOrEmpty(c.durationWeeks) && f.draft.price == ShowOrEmpty(c.price)
    ensures f.draft.thumbnailUrl == OrEmpty(c.thumbnailUrl) && f.draft.instructorName == OrEmpty(c.instructorName)
    ensures c.enrollmentDeadline.None? ==> f.draft.enrollmentDeadline == ""
    ensures c.enrollmentDeadline.Some? ==> f.draft.enrollmentDeadline == Prefix(c.enrollmentDeadline.value, 10)
    ensures f.draft.whatYouLearn == ListText(c.whatYouLearn) && f.draft.prerequisites == ListText(c.prerequisites)
  {
    var deadline := match c.enrollmentDeadline
      case None => ""
      case Some(d) => Prefix(d, 10);
    Form(true, Some(c.id), Draft(
      c.title,
      c.description,
      c.level,
      ShowOrEmpty(c.durationWeeks),
      OrEmpty(c.thumbnailUrl),
      deadline,
      ShowOrEmpty(c.price),
      OrEmpty(c.instructorName),
      ListText(c.whatYouLearn),
      ListText(c.prerequisites),
      c.isActive))
  }

  /** A list the textarea can carry: no empty item and no newline inside an item. */
  predicate Listable(items: seq<string>)
  {
    forall i :: 0 <= i < |items| ==> items[i] != "" && Newline !in items[i]
  }

  /** A nullable list survives pre-fill then submit: a `null` list comes back
      as [], and a listable one comes back unchanged. */
  lemma ListRoundTrip(xs: Option<seq<string>>)
    requires xs.Some? ==> Listable(xs.value)
    ensures Lines(ListText(xs)) == xs.GetOr([])
  {
    if xs.Some? {
      LinesJoin(xs.value);
    }
  }

  /** The course's own columns, in payload form (a `null` list as []). */
  function Columns(c: Course): Row
  {
    Row(c.title, c.description, c.level, AsNumber(c.durationWeeks), c.thumbnailUrl, c.enrollmentDeadline,
      AsNumber(c.price), c.instructorName, c.whatYouLearn.GetOr([]), c.prerequisites.GetOr([]), c.isActive)
  }

  /** Editing a course and submitting without changes updates it with its own
      columns, provided no optional text is stored as "", the deadline has at
      most 10 characters and the lists are listable. */
  lemma EditThenSubmit(c: Course, outcome: Outcome)
    requires c.id != ""
    requires c.thumbnailUrl != Some("") && c.instructorName != Some("")
    requires c.enrollmentDeadline.Some? ==> 0 < |c.enrollmentDeadline.value| <= 10
    requires c.whatYouLearn.Some? ==> Listable(c.whatYouLearn.value)
    requires c.prerequisites.Some? ==> Listable(c.prerequisites.value)
    ensures Submit(Edit(c), outcome).effect.sent == Some(Update(c.id, Columns(c)))
  {
    var d := Edit(c).draft;
    var r := ToRow(d);
    NullableNumberRoundTrip(c.durationWeeks);
    assert r.durationWeeks == AsNumber(c.durationWeeks);
    NullableNumberRoundTrip(c.price);
    assert r.price == AsNumber(c.price);
    NullableRoundTrip(c.thumbnailUrl);
    NullableRoundTrip(c.instructorName);
    assert r.enrollmentDeadline == c.enrollmentDeadline;
    ListRoundTrip(c.whatYouLearn);
    ListRoundTrip(c.prerequisites);
    assert r == Columns(c);
  }

  /** A stored deadline longer than 10 characters (a timestamp) is sent back
      cut to its first 10. */
  lemma EditThenSubmitCutsDeadline(c: Course, deadline: string)
    requires c.enrollmentDeadline == Some(deadline) && |deadline| >= 10
    ensures ToRow(Edit(c).draft).enrollmentDeadline == Some(deadline[..10])
  {
    assert Edit(c).draft.enrollmentDeadline == deadline[..10];
  }

  /** `handleDelete`: nothing without confirmation; an error is alerted and
      the list is then not re-fetched. */
  function Remove(id: string, confirmed: bool, outcome: Outcome): (e: Effect<Row>)
    ensures !confirmed ==> e.sent.None? && e.alert.None? && !e.refetch
    ensures confirmed ==> e.sent == Some(Delete(id)) && (e.refetch <==> outcome.Ok?)
    ensures confirmed && outcome.Err? ==> e.alert == Some(outcome.message)
    ensures outcome.Ok? ==> e.alert.None?
  {
    Confirmed(confirmed, DeleteChecked(id, outcome))
  }
}
