/** The class enrollments screen: enrollments link a user to a class; they are
    inserted and deleted, never updated, and the list can be searched by class
    title or user name. */
module ClassEnrollments {
  import opened Wrappers
  import opened Seqs
  import opened Text
  import opened Crud
  import opened Lookup

  /** A row of `class_enrollments`. */
  datatype Enrollment = Enrollment(id: string, classId: Option<string>, userId: string)

  /** The form's draft: the two selects. */
  datatype Draft = Draft(classId: string, userId: string)

  /** The payload of an insert. */
  datatype Row = Row(classId: Option<string>, userId: string)

  /** The screen has no `editingId`: only whether the form is shown, and the draft. */
  datatype Panel = Panel(open: bool, draft: Draft)

  const EmptyDraft: Draft := Draft("", "")

  const RequiredMessage: string := "Please select a user"

  /** The payload: an empty class becomes `null`, the user is copied. */
  function ToRow(d: Draft): (r: Row)
    ensures r.classId.None? <==> d.classId == ""
    ensures r.classId.Some? ==> r.classId.value == d.classId
    ensures r.userId == d.userId
  {
    Row(NullIfEmpty(d.classId), d.userId)
  }

  /** `closeForm`: hidden, both selects cleared. */
  function Close(p: Panel): (q: Panel)
    ensures !q.open && q.draft == EmptyDraft
  {
    Panel(false, EmptyDraft)
  }

  /** `handleSubmit`: without a user nothing is sent; otherwise the row is
      inserted (there is no update path); an error keeps the panel, success
      closes and clears it and re-fetches. */
  function Submit(p: Panel, outcome: Outcome): (s: Step<Panel, Row>)
    ensures s.effect.sent.Some? <==> p.draft.userId != ""
    ensures s.effect.sent.Some? ==> s.effect.sent.value == Insert(ToRow(p.draft))
    ensures p.draft.userId == "" ==> s.state == p && !s.effect.refetch && s.effect.alert == Some(RequiredMessage)
    ensures p.draft.userId != "" && outcome.Err? ==> s.state == p && !s.effect.refetch && s.effect.alert == Some(outcome.message)
    ensures p.draft.userId != "" && outcome.Ok? ==> s.state == Panel(false, EmptyDraft) && s.effect.refetch && s.effect.alert.None?
  {
    if p.draft.userId == "" then Step(p, Effect(None, Some(RequiredMessage), false))
    else
      var request := Insert(ToRow(p.draft));
      match outcome
      case Err(message) => Step(p, Effect(Some(request), Some(message), false))
      case Ok => Step(Close(p), Effect(Some(request), None, true))
  }

  /** `handleDelete`: no confirmation; the request always goes out. */
  function Remove(id: string, outcome: Outcome): (e: Effect<Row>)
    ensures e.sent == Some(Delete(id))
    ensures e.refetch <==> outcome.Ok?
    ensures outcome.Err? ==> e.alert == Some(outcome.message)
    ensures outcome.Ok? ==> e.alert.None?
  {
    DeleteChecked(id, outcome)
  }

  /** The search criterion of one enrollment: the lowercased term occurs in the
      lowercased class title or in the lowercased user name. */
  predicate Matches(classes: seq<ClassRef>, users: seq<Profile>, term: string, e: Enrollment)
  {
    || Includes(Lower(ClassTitle(classes, e.classId)), Lower(term))
    || Includes(Lower(UserName(users, e.userId)), Lower(term))
  }

  /** `filteredEnrollments`: the enrollments that match the search, in their
      original order; an empty search keeps them all. */
  function Visible(enrollments: seq<Enrollment>, classes: seq<ClassRef>, users: seq<Profile>, term: string): (r: seq<Enrollment>)
    ensures IsSubsequence(r, enrollments)
    ensures forall e :: e in r <==> e in enrollments && Matches(classes, users, term, e)
    ensures forall e :: multiset(r)[e] == if Matches(classes, users, term, e) then multiset(enrollments)[e] else 0
    ensures term == "" ==> r == enrollments
  {
    assert term == "" ==> forall i :: 0 <= i < |enrollments| ==> Matches(classes, users, term, enrollments[i]) by {
      forall i | 0 <= i < |enrollments| && term == "" ensures Matches(classes, users, term, enrollments[i]) {
        assert Lower(term) == "";
      }
    }
    Filter(enrollments, e => Matches(classes, users, term, e))
  }
}
