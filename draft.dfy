/**
 * The "Add New Task" form's draft (`newTask`) and its change handler. The
 * handler stores the input's raw value under the input's `name`; nothing is
 * parsed, so numeric fields and the chips field end up holding text.
 */
module DraftTask {
  import opened Wrappers

  /** A draft field's value: the initial number or list, or raw input text. */
  datatype FormValue = Text(text: string) | Number(n: int) | Labels(items: seq<string>)

  /** The `name` attributes of the form's inputs. */
  datatype Field = Title | DueDate | Attachments | Messages | Avatars | Chips

  datatype Draft = Draft(
    title: FormValue,
    dueDate: FormValue,
    attachments: FormValue,
    messages: FormValue,
    avatars: FormValue,
    chips: FormValue)

  /** The draft the component starts with. */
  function EmptyDraft(): (d: Draft)
    ensures Get(d, Title) == Text("") && Get(d, DueDate) == Text("")
    ensures forall f: Field :: f in {Attachments, Messages, Avatars} ==> Get(d, f) == Number(0)
    ensures Get(d, Chips) == Labels([])
  {
    Draft(Text(""), Text(""), Number(0), Number(0), Number(0), Labels([]))
  }

  /** The `name` attribute of the input bound to field `f`. */
  function FieldName(f: Field): string
  {
    match f
    case Title => "title"
    case DueDate => "dueDate"
    case Attachments => "attachments"
    case Messages => "messages"
    case Avatars => "avatars"
    case Chips => "chips"
  }

  /** The field a change event's `name` designates, if it is one of the form's inputs. */
  function ParseFieldName(name: string): (r: Option<Field>)
    ensures r.Some? ==> FieldName(r.value) == name
    ensures r.None? ==> forall f: Field :: FieldName(f) != name
  {
    if name == "title" then Some(Title)
    else if name == "dueDate" then Some(DueDate)
    else if name == "attachments" then Some(Attachments)
    else if name == "messages" then Some(Messages)
    else if name == "avatars" then Some(Avatars)
    else if name == "chips" then Some(Chips)
    else None
  }

  /** Each input's name designates exactly its own field. */
  lemma {:induction false} FieldNameRoundTrip(f: Field)
    ensures ParseFieldName(FieldName(f)) == Some(f)
  {
    match f
    case Title =>
    case DueDate => assert "dueDate" != "title";
    case Attachments =>
    case Messages =>
    case Avatars =>
    case Chips =>
  }

  /** `draft[f]` */
  function Get(d: Draft, f: Field): FormValue
  {
    match f
    case Title => d.title
    case DueDate => d.dueDate
    case Attachments => d.attachments
    case Messages => d.messages
    case Avatars => d.avatars
    case Chips => d.chips
  }

  /** The draft after a change event: field `f` becomes the raw text, every other field keeps its value. */
  function UpdateField(d: Draft, f: Field, value: string): (r: Draft)
    ensures Get(r, f) == Text(value)
    ensures forall g: Field :: g != f ==> Get(r, g) == Get(d, g)
  {
    match f
    case Title => d.(title := Text(value))
    case DueDate => d.(dueDate := Text(value))
    case Attachments => d.(attachments := Text(value))
    case Messages => d.(messages := Text(value))
    case Avatars => d.(avatars := Text(value))
    case Chips => d.(chips := Text(value))
  }

  /** Two drafts that agree on every field are the same draft. */
  lemma DraftsEqual(d: Draft, e: Draft)
    requires forall f: Field :: Get(d, f) == Get(e, f)
    ensures d == e
  {
    assert Get(d, Title) == Get(e, Title) && Get(d, DueDate) == Get(e, DueDate);
    assert Get(d, Attachments) == Get(e, Attachments) && Get(d, Messages) == Get(e, Messages);
    assert Get(d, Avatars) == Get(e, Avatars) && Get(d, Chips) == Get(e, Chips);
  }

  /** Typing into one input twice keeps only the last value. */
  lemma UpdateFieldOverwrites(d: Draft, f: Field, v: string, w: string)
    ensures UpdateField(UpdateField(d, f, v), f, w) == UpdateField(d, f, w)
  {
    DraftsEqual(UpdateField(UpdateField(d, f, v), f, w), UpdateField(d, f, w));
  }

  /** Edits to two different inputs do not interfere, in either order. */
  lemma UpdateFieldCommutes(d: Draft, f: Field, g: Field, v: string, w: string)
    requires f != g
    ensures UpdateField(UpdateField(d, f, v), g, w) == UpdateField(UpdateField(d, g, w), f, v)
  {
    DraftsEqual(UpdateField(UpdateField(d, f, v), g, w), UpdateField(UpdateField(d, g, w), f, v));
  }
}
