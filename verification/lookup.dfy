/** The reference-data resolvers: a user id to a display name and a class id to
    a title, looked up in lists fetched earlier. */
module Lookup {
  import opened Wrappers
  import opened Seqs
  import opened Text

  /** A row of `profiles` as the screens select it. */
  datatype Profile = Profile(id: string, firstName: Option<string>, lastName: Option<string>)

  /** A row of `live_classes` (or `courses`) reduced to `id, title`. */
  datatype ClassRef = ClassRef(id: string, title: string)

  /** The placeholder shown for an unknown reference. */
  const Dash: string := "—"

  /** `${first_name ?? ''} ${last_name ?? ''}`.trim() */
  function FullName(p: Profile): (r: string)
    ensures p.firstName.None? && p.lastName.None? ==> r == ""
    ensures |r| > 0 ==> !IsSpace(r[0]) && !IsSpace(r[|r| - 1])
    ensures exists i :: BlankPadded(p.firstName.GetOr("") + " " + p.lastName.GetOr(""), r, i)
  {
    var joined := p.firstName.GetOr("") + " " + p.lastName.GetOr("");
    assert p.firstName.None? && p.lastName.None? ==> TrimStart(joined) == "";
    Trim(joined)
  }

  /** A name with both parts present and already trimmed is shown as
      "first last". */
  lemma FullNameOfTrimmedParts(p: Profile, first: string, last: string)
    requires p.firstName == Some(first) && p.lastName == Some(last)
    requires |first| > 0 && !IsSpace(first[0]) && !IsSpace(first[|first| - 1])
    requires |last| > 0 && !IsSpace(last[0]) && !IsSpace(last[|last| - 1])
    ensures FullName(p) == first + " " + last
  {
    var joined := first + " " + last;
    assert joined[0] == first[0];
    assert joined[|joined| - 1] == last[|last| - 1];
  }

  /** A first name with no last name (`null` or "") is shown alone. */
  lemma FullNameOfFirstOnly(p: Profile, first: string)
    requires p.firstName == Some(first) && p.lastName.GetOr("") == ""
    requires |first| > 0 ==> !IsSpace(first[0]) && !IsSpace(first[|first| - 1])
    ensures FullName(p) == first
  {
    var joined := first + " " + p.lastName.GetOr("");
    assert joined == first + " ";
    assert BlankPadded(joined, first, 0);
    TrimUnique(joined, first, 0);
  }

  /** A last name with no first name (`null` or "") is shown alone. */
  lemma FullNameOfLastOnly(p: Profile, last: string)
    requires p.firstName.GetOr("") == "" && p.lastName == Some(last)
    requires |last| > 0 ==> !IsSpace(last[0]) && !IsSpace(last[|last| - 1])
    ensures FullName(p) == last
  {
    var joined := p.firstName.GetOr("") + " " + last;
    assert joined == " " + last;
    assert BlankPadded(joined, last, 1);
    TrimUnique(joined, last, 1);
  }

  predicate HasId(id: string, p: Profile)
  {
    p.id == id
  }

  predicate IsClass(id: string, c: ClassRef)
  {
    c.id == id
  }

  /** `users[i]` is the first profile with this id, the one `find` returns. */
  ghost predicate FirstProfile(users: seq<Profile>, id: string, i: int)
  {
    0 <= i < |users| && users[i].id == id && forall j :: 0 <= j < i ==> users[j].id != id
  }

  /** `classes[i]` is the first class with this id. */
  ghost predicate FirstClass(classes: seq<ClassRef>, id: string, i: int)
  {
    0 <= i < |classes| && classes[i].id == id && forall j :: 0 <= j < i ==> classes[j].id != id
  }

  /** `getUserName`: the full name of the first profile with the id, or "—". */
  function UserName(users: seq<Profile>, id: string): (r: string)
    ensures (forall u :: u in users ==> u.id != id) ==> r == Dash
    ensures forall i :: FirstProfile(users, id, i) ==> r == FullName(users[i])
  {
    match FindFirst(users, p => HasId(id, p))
    case None =>
      Dash
    case Some(i) =>
      FirstProfileUnique(users, id, i);
      assert users[i] in users;
      FullName(users[i])
  }

  lemma FirstProfileUnique(users: seq<Profile>, id: string, i: nat)
    requires i < |users| && users[i].id == id
    requires forall j :: 0 <= j < i ==> !HasId(id, users[j])
    ensures forall k :: FirstProfile(users, id, k) ==> k == i
  {
  }

  /** `classes.find((c) => c.id === classId)?.title ?? '—'`; a `null` id matches
      no class. */
  function ClassTitle(classes: seq<ClassRef>, classId: Option<string>): (r: string)
    ensures classId.None? ==> r == Dash
    ensures classId.Some? && (forall c :: c in classes ==> c.id != classId.value) ==> r == Dash
    ensures classId.Some? ==> forall i :: FirstClass(classes, classId.value, i) ==> r == classes[i].title
  {
    match classId
    case None => Dash
    case Some(id) =>
      match FindFirst(classes, c => IsClass(id, c))
      case None =>
        Dash
      case Some(i) =>
        FirstClassUnique(classes, id, i);
        assert classes[i] in classes;
        classes[i].title
  }

  lemma FirstClassUnique(classes: seq<ClassRef>, id: string, i: nat)
    requires i < |classes| && classes[i].id == id
    requires forall j :: 0 <= j < i ==> !IsClass(id, classes[j])
    ensures forall k :: FirstClass(classes, id, k) ==> k == i
  {
  }

  /** `getClassTitle` of the notes and recordings screens: `if (!classId)
      return '—'` first, so an empty id is "—" even if some class had id "". */
  function OptionalClassTitle(classes: seq<ClassRef>, classId: Option<string>): (r: string)
    ensures classId.None? || classId == Some("") ==> r == Dash
    ensures classId.Some? && classId.value != "" ==> r == ClassTitle(classes, classId)
  {
    if classId.None? || classId.value == "" then Dash else ClassTitle(classes, classId)
  }
}
