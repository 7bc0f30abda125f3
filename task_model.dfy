/** The Task document of server/models/Task.js: a schema with a required,
    trimmed title, a `completed` flag that defaults to false and a
    `createdAt` time that defaults to the moment the document is built. The
    routes also store the owning user on every task (see TaskRoutes). */
module TaskModel {
  import opened Text

  /** Document and user identifiers (MongoDB ObjectIds), compared only for
      equality. */
  type TaskId = nat
  type UserId = nat

  /** A point in time in milliseconds, as `Date.now` gives it. */
  type Time = int

  datatype Option<T> = None | Some(value: T) {
    function GetOr(default: T): T
    {
      match this
      case Some(v) => v
      case None => default
    }
  }

  datatype Result<T> = Ok(value: T) | Err(message: string)

  datatype Task = Task(
    id: TaskId,
    title: string,
    completed: bool,
    createdAt: Time,
    owner: UserId)

  /** The fields a caller may pass when building a new document; a field
      that is not given is `None`. */
  datatype Fields = Fields(
    title: Option<string>,
    completed: Option<bool>,
    createdAt: Option<Time>)

  /** The message Mongoose gives when the `required` validator of `title`
      fails on save. */
  const TitleRequiredMessage: string :=
    "Task validation failed: title: Task title is required"

  /** The value the `title` path holds after the schema's `trim` setter. */
  function CastTitle(raw: string): (r: string)
    ensures Trims(raw, r)
    ensures IsTrimmed(r)
    ensures r == [] <==> AllSpace(raw)
  {
    Trim(raw)
  }

  /** `new Task(fields)`: the setter trims the title and the two defaults fill
      in what was not given. A missing title is held as the empty string,
      which the `required` validator rejects exactly like an absent one. */
  function NewDocument(id: TaskId, owner: UserId, f: Fields, now: Time): (t: Task)
    ensures t.id == id && t.owner == owner
    ensures IsTrimmed(t.title)
    ensures t.title == [] <==> (f.title.None? || AllSpace(f.title.value))
    ensures f.title.Some? ==> Trims(f.title.value, t.title)
    ensures f.completed.None? ==> !t.completed
    ensures f.completed.Some? ==> t.completed == f.completed.value
    ensures f.createdAt.None? ==> t.createdAt == now
    ensures f.createdAt.Some? ==> t.createdAt == f.createdAt.value
  {
    Task(id,
         match f.title
         case Some(raw) => CastTitle(raw)
         case None => [],
         f.completed.GetOr(false),
         f.createdAt.GetOr(now),
         owner)
  }

  /** `save()`: the `required` validator refuses an empty title; otherwise
      the document is stored as it is. */
  function Save(t: Task): (r: Result<Task>)
    ensures r.Ok? <==> t.title != []
    ensures r.Ok? ==> r.value == t
    ensures r.Err? ==> r.message == TitleRequiredMessage
  {
    if t.title == [] then Err(TitleRequiredMessage) else Ok(t)
  }

  /** No two tasks share an id. */
  predicate UniqueIds(s: seq<Task>)
  {
    forall i, j :: 0 <= i < j < |s| ==> s[i].id != s[j].id
  }

  /** What every stored task satisfies: a title that is present and has no
      white space at either end. */
  predicate Stored(t: Task)
  {
    t.title != [] && IsTrimmed(t.title)
  }

  /** A document built by `new Task` and accepted by `save` is a well-formed
      stored task, and its title is the trimmed input. */
  lemma SavedDocumentIsStored(id: TaskId, owner: UserId, f: Fields, now: Time)
    requires Save(NewDocument(id, owner, f, now)).Ok?
    ensures f.title.Some? && !AllSpace(f.title.value)
    ensures Stored(Save(NewDocument(id, owner, f, now)).value)
    ensures Save(NewDocument(id, owner, f, now)).value.title == Trim(f.title.value)
  {
  }
}
