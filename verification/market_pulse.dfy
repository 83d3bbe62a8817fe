/** The Market Pulse screen: promotional reels with optional thumbnail and
    duration, a view count, a publication time and a tag, each with its own
    default. */
module MarketPulse {
  import opened Wrappers
  import opened Text
  import opened Numbers
  import opened Crud

  datatype Platform = Instagram | Youtube | X

  /** A row of `market_reels`. The description is stored but not edited here. */
  datatype Reel = Reel(
    id: string,
    title: string,
    description: Option<string>,
    reelUrl: string,
    thumbnailUrl: Option<string>,
    platform: Platform,
    durationSeconds: Option<nat>,
    viewCount: nat,
    publishedAt: string,
    isActive: bool,
    tag: string)

  /** The form's draft. */
  datatype Draft = Draft(
    title: string,
    reelUrl: string,
    thumbnailUrl: string,
    platform: Platform,
    durationSeconds: string,
    viewCount: string,
    publishedAt: string,
    tag: string,
    isActive: bool)

  /** The payload of an insert or update. */
  datatype Row = Row(
    title: string,
    reelUrl: string,
    thumbnailUrl: Option<string>,
    platform: Platform,
    durationSeconds: Option<JsNumber>,
    viewCount: JsNumber,
    publishedAt: string,
    tag: string,
    isActive: bool)

  const DefaultTag: string := "General"

  /** The draft the screen starts with: its tag is "". */
  const InitialDraft: Draft := Draft("", "", "", Instagram, "", "", "", "", true)

  /** The draft `closeForm` restores: its tag is "General". */
  const ClosedDraft: Draft := Draft("", "", "", Instagram, "", "", "", DefaultTag, true)

  const Initial: Form<Draft> := Form(false, None, InitialDraft)

  const Closed: Form<Draft> := Form(false, None, ClosedDraft)

  /** The payload built by `handleSubmit`; `now` is the ISO time of the submit,
      used when no publication time is given. */
  function ToRow(d: Draft, now: string): (r: Row)
    ensures r.title == d.title && r.reelUrl == d.reelUrl
    ensures r.platform == d.platform && r.isActive == d.isActive
    ensures r.thumbnailUrl.None? <==> d.thumbnailUrl == ""
    ensures r.thumbnailUrl.Some? ==> r.thumbnailUrl.value == d.thumbnailUrl
    ensures r.durationSeconds.None? <==> d.durationSeconds == ""
    ensures r.durationSeconds.Some? ==> r.durationSeconds.value == NumberOf(d.durationSeconds)
    ensures d.viewCount == "" ==> r.viewCount == Finite(0)
    ensures d.viewCount != "" ==> r.viewCount == NumberOf(d.viewCount)
    ensures r.publishedAt == if d.publishedAt == "" then now else d.publishedAt
    ensures r.tag == if d.tag == "" then DefaultTag else d.tag
  {
    Row(
      d.title,
      d.reelUrl,
      NullIfEmpty(d.thumbnailUrl),
      d.platform,
      NumberOrNull(d.durationSeconds),
      if d.viewCount != "" then NumberOf(d.viewCount) else Finite(0),
      if d.publishedAt != "" then d.publishedAt else now,
      if d.tag != "" then d.tag else DefaultTag,
      d.isActive)
  }

  /** The view count's explicit 0 default agrees with `Number('')`, so the
      payload's view count is always `Number(viewCount)`. */
  lemma ViewCountDefault(d: Draft, now: string)
    ensures ToRow(d, now).viewCount == NumberOf(d.viewCount)
  {
  }

  /** The starting draft and the `closeForm` draft differ only in the tag, and
      since an empty tag is sent as "General" they give the same payload. */
  lemma InitialAndClosedDrafts(now: string)
    ensures InitialDraft != ClosedDraft
    ensures InitialDraft.(tag := DefaultTag) == ClosedDraft
    ensures ToRow(InitialDraft, now) == ToRow(ClosedDraft, now)
  {
  }

  /** `handleSubmit`: an update when editing, an insert otherwise; an error
      keeps the form as it was, success closes it to the `closeForm` draft
      and re-fetches. */
  function Submit(form: Form<Draft>, now: string, outcome: Outcome): (s: Step<Form<Draft>, Row>)
    ensures s.effect.sent == Some(SaveRequest(form.editingId, ToRow(form.draft, now)))
    ensures outcome.Err? ==> s.state == form && !s.effect.refetch && s.effect.alert == Some(outcome.message)
    ensures outcome.Ok? ==> s.state == Closed && s.effect.refetch && s.effect.alert.None?
  {
    Save(form, ToRow(form.draft, now), outcome, Closed)
  }

  /** `handleEdit`: shown, editing the reel's id; `null`s become "", numbers
      are printed, and the publication time is cut to its first 16
      characters (`YYYY-MM-DDTHH:mm`). */
  function Edit(r: Reel): (f: Form<Draft>)
    ensures f.open && f.editingId == Some(r.id)
    ensures f.draft.title == r.title && f.draft.reelUrl == r.reelUrl && f.draft.platform == r.platform
    ensures f.draft.tag == r.tag && f.draft.isActive == r.isActive
    ensures f.draft.thumbnailUrl == OrEmpty(r.thumbnailUrl)
    ensures f.draft.durationSeconds == ShowOrEmpty(r.durationSeconds)
    ensures f.draft.viewCount == Show(r.viewCount)
    ensures f.draft.publishedAt == Prefix(r.publishedAt, 16)
  {
    Form(true, Some(r.id), Draft(
      r.title,
      r.reelUrl,
      OrEmpty(r.thumbnailUrl),
      r.platform,
      ShowOrEmpty(r.durationSeconds),
      Show(r.viewCount),
      Prefix(r.publishedAt, 16),
      r.tag,
      r.isActive))
  }

  /** The reel's own edited columns, in payload form. */
  function Columns(r: Reel): Row
  {
    Row(r.title, r.reelUrl, r.thumbnailUrl, r.platform, AsNumber(r.durationSeconds), Finite(r.viewCount),
      r.publishedAt, r.tag, r.isActive)
  }

  /** Editing a reel and submitting without changes updates it with its own
      columns, except that the publication time comes back cut to its first
      16 characters (`YYYY-MM-DDTHH:MM`), or as the submit time when none is
      stored; a thumbnail stored as "" comes back as `null`, and an empty tag
      as "General". Without those three cases the reel comes back unchanged
      exactly when its publication time has at most 16 characters, so a time
      the screen wrote itself (`toISOString()`, 24 characters) loses its
      seconds and zone. */
  lemma EditThenSubmit(r: Reel, now: string, outcome: Outcome)
    requires r.id != ""
    ensures Submit(Edit(r), now, outcome).effect.sent
      == Some(Update(r.id, Columns(r).(
           thumbnailUrl := if r.thumbnailUrl == Some("") then None else r.thumbnailUrl,
           publishedAt := if r.publishedAt == "" then now else Prefix(r.publishedAt, 16),
           tag := if r.tag == "" then DefaultTag else r.tag)))
    ensures r.thumbnailUrl != Some("") && r.tag != "" && r.publishedAt != "" ==>
              (Submit(Edit(r), now, outcome).effect.sent == Some(Update(r.id, Columns(r))) <==> |r.publishedAt| <= 16)
  {
    var d := Edit(r).draft;
    NullableRoundTrip(r.thumbnailUrl);
    NullableNumberRoundTrip(r.durationSeconds);
    ShowRoundTrip(r.viewCount);
    assert d.publishedAt == Prefix(r.publishedAt, 16);
    assert r.publishedAt == "" <==> d.publishedAt == "";
    assert ToRow(d, now) == Columns(r).(
      thumbnailUrl := if r.thumbnailUrl == Some("") then None else r.thumbnailUrl,
      publishedAt := if r.publishedAt == "" then now else Prefix(r.publishedAt, 16),
      tag := if r.tag == "" then DefaultTag else r.tag);
  }

  /** `handleDelete`: nothing without confirmation; an error is alerted and
      the list is then not re-fetched. */
  function Remove(id: string, confirmed: bool, outcome: Outcome): (e: Effect<Row>)
    ensures !confirmed ==> e.sent.None? && e.alert.None? && !e.refetch
    ensures confirmed ==> e.sent == Some(Delete(id)) && (e.refetch <==> outcome.Ok?)
    ensures confirmed && outcome.Err? ==> e.alert == Some(outcome.message)
    ensures outcome.Ok? ==> e.alert.None?
  {
    Confirmed(confirmed, DeleteChecked(id, outcome))
  }
}
