/** What every admin screen shares: the store's answers, the requests a screen
    sends, the form state (`showForm`, `editingId`, the draft), and the
    save / delete / reload patterns around the store calls. */
module Crud {
  import opened Wrappers

  /** The `{ error }` of an insert, update or delete call. */
  datatype Outcome = Ok | Err(message: string)

  /** The `{ data, error }` of a select call. */
  datatype Response<T> = Response(data: Option<seq<T>>, error: Option<string>)

  /** A request sent to a table: insert a row, update the row with an id, delete it. */
  datatype Request<P> = Insert(row: P) | Update(id: string, row: P) | Delete(id: string)

  /** What a handler does besides changing its own state: the request it sends
      (if any), the message it shows with `alert` (if any), and whether it then
      re-fetches the list. */
  datatype Effect<P> = Effect(sent: Option<Request<P>>, alert: Option<string>, refetch: bool)

  /** The form state of a screen: whether the form is shown, the id being edited
      (`null` when creating), and the draft. */
  datatype Form<D> = Form(open: bool, editingId: Option<string>, draft: D)

  /** A handler's result: the screen's next state and the effect. */
  datatype Step<S, P> = Step(state: S, effect: Effect<P>)

  function NoEffect<P>(): (e: Effect<P>)
    ensures e.sent.None? && e.alert.None? && !e.refetch
  {
    Effect(None, None, false)
  }

  /** JavaScript truthiness of `editingId`: `null` and "" are falsy. */
  predicate Editing(editingId: Option<string>)
  {
    editingId.Some? && editingId.value != ""
  }

  /** `s || null`: an empty string becomes `null`. */
  function NullIfEmpty(s: string): (r: Option<string>)
    ensures r.None? <==> s == ""
    ensures r.Some? ==> r.value == s
  {
    if s == "" then None else Some(s)
  }

  /** `o ?? ''`: `null` becomes the empty string. */
  function OrEmpty(o: Option<string>): (r: string)
    ensures o.None? ==> r == ""
    ensures o.Some? ==> r == o.value
  {
    o.GetOr("")
  }

  /** Pre-filling a nullable field and submitting it again gives the field back,
      except for a stored "" (which comes back as `null`). */
  lemma NullableRoundTrip(o: Option<string>)
    ensures NullIfEmpty(OrEmpty(o)) == (if o == Some("") then None else o)
    ensures OrEmpty(NullIfEmpty(OrEmpty(o))) == OrEmpty(o)
  {
  }

  /** `editingId ? update(row).eq('id', editingId) : insert(row)`. */
  function SaveRequest<P>(editingId: Option<string>, row: P): (r: Request<P>)
    ensures r.Update? <==> Editing(editingId)
    ensures r.Insert? <==> !Editing(editingId)
    ensures !r.Delete? && r.row == row
    ensures r.Update? ==> editingId == Some(r.id)
  {
    if Editing(editingId) then Update(editingId.value, row) else Insert(row)
  }

  /** Saving a row with the error checked: the request goes out; on error the
      message is alerted and the form is left as it was (open, same draft, same
      `editingId`); on success the form becomes `closed` and the list is
      re-fetched. */
  function Save<D, P>(form: Form<D>, row: P, outcome: Outcome, closed: Form<D>): (s: Step<Form<D>, P>)
    ensures s.effect.sent == Some(SaveRequest(form.editingId, row))
    ensures outcome.Err? ==> s.state == form && !s.effect.refetch && s.effect.alert == Some(outcome.message)
    ensures outcome.Ok? ==> s.state == closed && s.effect.refetch && s.effect.alert.None?
  {
    var request := SaveRequest(form.editingId, row);
    match outcome
    case Err(message) => Step(form, Effect(Some(request), Some(message), false))
    case Ok => Step(closed, Effect(Some(request), None, true))
  }

  /** A draft that fails the required-field check: an alert, nothing sent, the
      form untouched. */
  function Reject<D, P>(form: Form<D>, message: string): (s: Step<Form<D>, P>)
    ensures s.state == form
    ensures s.effect.sent.None? && !s.effect.refetch && s.effect.alert == Some(message)
  {
    Step(form, Effect(None, Some(message), false))
  }

  /** The "New" button of most screens: `setShowForm(true)`, which shows the
      form and touches neither the draft nor `editingId`. */
  function ShowForm<D>(form: Form<D>): (r: Form<D>)
    ensures r.open
    ensures r.draft == form.draft && r.editingId == form.editingId
  {
    form.(open := true)
  }

  /** A delete whose error is checked: the request goes out; on error the
      message is alerted and the list is not re-fetched; on success it is. */
  function DeleteChecked<P>(id: string, outcome: Outcome): (e: Effect<P>)
    ensures e.sent == Some(Delete(id))
    ensures e.refetch <==> outcome.Ok?
    ensures outcome.Err? ==> e.alert == Some(outcome.message)
    ensures outcome.Ok? ==> e.alert.None?
  {
    match outcome
    case Err(message) => Effect(Some(Delete(id)), Some(message), false)
    case Ok => Effect(Some(Delete(id)), None, true)
  }

  /** `if (!confirm(...)) return`: a declined confirmation does nothing at all. */
  function Confirmed<P>(confirmed: bool, e: Effect<P>): (r: Effect<P>)
    ensures !confirmed ==> r.sent.None? && r.alert.None? && !r.refetch
    ensures confirmed ==> r == e
  {
    if confirmed then e else NoEffect()
  }

  /** A list fetch with the error checked: on error the list is kept, otherwise
      it becomes `data ?? []`. */
  function Reload<T>(items: seq<T>, response: Response<T>): (r: seq<T>)
    ensures response.error.Some? ==> r == items
    ensures response.error.None? && response.data.Some? ==> r == response.data.value
    ensures response.error.None? && response.data.None? ==> r == []
  {
    if response.error.Some? then items else response.data.GetOr([])
  }

  /** A list fetch with the error ignored: the list becomes `data ?? []`, so a
      failed fetch empties it. */
  function ReloadUnchecked<T>(response: Response<T>): (r: seq<T>)
    ensures response.data.Some? ==> r == response.data.value
    ensures response.data.None? ==> r == []
  {
    response.data.GetOr([])
  }
}
