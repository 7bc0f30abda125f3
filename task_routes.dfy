/** The task routes of server/routes/tasks.js: the four handlers behind the
    `protect` middleware, each scoped to the authenticated caller. The
    caller's id (`req.user._id`) is a parameter; the MongoDB collection is an
    in-memory sequence of tasks in insertion order. */
module TaskRoutes {
  import opened Text
  import opened TaskModel

  /** The two fields a PUT body may carry; an absent field is `None`. */
  datatype UpdateBody = UpdateBody(title: Option<string>, completed: Option<bool>)

  /** What a POST, PUT or DELETE handler answers. */
  datatype Response =
    | Created(task: Task)
    | Updated(task: Task)
    | Deleted(message: string, id: TaskId)
    | BadRequest(error: string)
    | NotFound(error: string)
  {
    function Status(): (code: nat)
      ensures code in {200, 201, 400, 404}
      ensures code == 200 <==> Updated? || Deleted?
      ensures code == 201 <==> Created?
      ensures code == 400 <==> BadRequest?
      ensures code == 404 <==> NotFound?
    {
      match this
      case Created(_) => 201
      case Updated(_) => 200
      case Deleted(_, _) => 200
      case BadRequest(_) => 400
      case NotFound(_) => 404
    }
  }

  const TitleRequired: string := "Title is required"
  const TaskNotFound: string := "Task not found"
  const DeletedMessage: string := "Task deleted successfully"

  /** The query `{ _id: id, user: owner }` of the PUT and DELETE handlers. */
  predicate Owns(t: Task, owner: UserId, id: TaskId)
  {
    t.id == id && t.owner == owner
  }

  /** The POST guard `!title || title.trim() === ""`. */
  predicate TitleMissing(title: Option<string>)
  {
    title.None? || title.value == [] || Trim(title.value) == []
  }

  /** The guard rejects exactly the titles that are absent or white space. */
  lemma TitleMissingIsBlank(title: Option<string>)
    ensures TitleMissing(title) <==> (title.None? || AllSpace(title.value))
  {
  }

  /** The query `{ user: owner }`, in collection order. */
  function OwnedBy(s: seq<Task>, owner: UserId): (r: seq<Task>)
    ensures |r| <= |s|
    ensures forall t :: t in r <==> t in s && t.owner == owner
  {
    if s == [] then []
    else if s[0].owner == owner then [s[0]] + OwnedBy(s[1..], owner)
    else OwnedBy(s[1..], owner)
  }

  /** Sorted by `createdAt`, largest first. */
  predicate NewestFirst(s: seq<Task>)
  {
    forall i, j :: 0 <= i < j < |s| ==> s[i].createdAt >= s[j].createdAt
  }

  function InsertNewest(t: Task, s: seq<Task>): (r: seq<Task>)
    requires NewestFirst(s)
    ensures NewestFirst(r)
    ensures |r| == |s| + 1
    ensures r[0] == t || (s != [] && r[0] == s[0])
    ensures multiset(r) == multiset(s) + multiset{t}
  {
    if s == [] || t.createdAt >= s[0].createdAt then [t] + s
    else
      var rest := InsertNewest(t, s[1..]);
      assert s == [s[0]] + s[1..];
      [s[0]] + rest
  }

  /** `.sort({ createdAt: -1 })`. MongoDB leaves the order of equal
      timestamps open; this one keeps them in collection order. */
  function SortNewestFirst(s: seq<Task>): (r: seq<Task>)
    ensures NewestFirst(r)
    ensures multiset(r) == multiset(s)
  {
    if s == [] then []
    else
      assert s == [s[0]] + s[1..];
      InsertNewest(s[0], SortNewestFirst(s[1..]))
  }

  /** Lines 62-63: a supplied title is trimmed by the route and again by the
      schema's setter, a supplied `completed` is copied, and nothing else is
      touched. */
  function Patch(t: Task, b: UpdateBody): (r: Task)
  {
    t.(title := match b.title
                case Some(raw) => CastTitle(Trim(raw))
                case None => t.title,
       completed := b.completed.GetOr(t.completed))
  }

  /** Only the supplied fields change, and a supplied title is stored as its
      trimmed form. */
  lemma PatchChangesOnlySupplied(t: Task, b: UpdateBody)
    ensures Patch(t, b).id == t.id && Patch(t, b).owner == t.owner
    ensures Patch(t, b).createdAt == t.createdAt
    ensures b.title.None? ==> Patch(t, b).title == t.title
    ensures b.title.Some? ==> Patch(t, b).title == Trim(b.title.value)
    ensures b.completed.None? ==> Patch(t, b).completed == t.completed
    ensures b.completed.Some? ==> Patch(t, b).completed == b.completed.value
  {
    if b.title.Some? {
      TrimIdempotent(b.title.value);
    }
  }

  /** Applying the same body twice is applying it once. */
  lemma PatchIdempotent(t: Task, b: UpdateBody)
    ensures Patch(Patch(t, b), b) == Patch(t, b)
  {
    PatchChangesOnlySupplied(t, b);
    PatchChangesOnlySupplied(Patch(t, b), b);
  }

  /** The patched task passes `save` exactly when no blank title was
      supplied, and then it is a well-formed stored task. */
  lemma PatchSaves(t: Task, b: UpdateBody)
    requires Stored(t)
    ensures Save(Patch(t, b)).Ok? <==> (b.title.None? || !AllSpace(b.title.value))
    ensures Save(Patch(t, b)).Ok? ==> Stored(Patch(t, b))
  {
    PatchChangesOnlySupplied(t, b);
  }

  /** Changing or removing a task of another owner does not change what
      `owner` sees. */
  lemma {:induction false} OwnedByUpdateOther(s: seq<Task>, k: nat, t: Task, owner: UserId)
    requires k < |s| && s[k].owner != owner && t.owner != owner
    ensures OwnedBy(s[k := t], owner) == OwnedBy(s, owner)
  {
    if k > 0 {
      assert s[k := t][1..] == s[1..][k - 1 := t];
      OwnedByUpdateOther(s[1..], k - 1, t, owner);
    } else {
      assert s[k := t][1..] == s[1..];
    }
  }

  lemma {:induction false} OwnedByRemoveOther(s: seq<Task>, k: nat, owner: UserId)
    requires k < |s| && s[k].owner != owner
    ensures OwnedBy(s[..k] + s[k + 1..], owner) == OwnedBy(s, owner)
  {
    if k > 0 {
      assert (s[..k] + s[k + 1..])[1..] == s[1..][..k - 1] + s[1..][k..];
      OwnedByRemoveOther(s[1..], k - 1, owner);
    } else {
      assert s[..k] + s[k + 1..] == s[1..];
    }
  }

  lemma {:induction false} OwnedByAppendOther(s: seq<Task>, t: Task, owner: UserId)
    requires t.owner != owner
    ensures OwnedBy(s + [t], owner) == OwnedBy(s, owner)
  {
    if s == [] {
      assert OwnedBy([t], owner) == OwnedBy([t][1..], owner);
    } else {
      assert (s + [t])[1..] == s[1..] + [t];
      OwnedByAppendOther(s[1..], t, owner);
    }
  }

  /** The invariant of the collection: every task is a well-formed stored
      task (the schema's `required` and `trim`), and ids are unique and
      already issued. */
  ghost predicate WellFormed(s: seq<Task>, nextId: TaskId)
  {
    (forall k :: 0 <= k < |s| ==> Stored(s[k]) && s[k].id < nextId) &&
    UniqueIds(s)
  }

  /** Appending a stored task under the next id keeps the invariant, and
      that id belongs to no earlier task. */
  lemma AppendWellFormed(s: seq<Task>, t: Task, nextId: TaskId)
    requires WellFormed(s, nextId) && Stored(t) && t.id == nextId
    ensures WellFormed(s + [t], nextId + 1)
    ensures forall u :: u in s ==> u.id != t.id
  {
  }

  /** Replacing a task by a stored task with the same id keeps the
      invariant. */
  lemma ReplaceWellFormed(s: seq<Task>, k: nat, t: Task, nextId: TaskId)
    requires WellFormed(s, nextId) && k < |s| && Stored(t) && t.id == s[k].id
    ensures WellFormed(s[k := t], nextId)
  {
  }

  /** Removing the task at `k` keeps the invariant and drops exactly the
      tasks with its id. */
  lemma RemoveWellFormed(s: seq<Task>, k: nat, nextId: TaskId)
    requires WellFormed(s, nextId) && k < |s|
    ensures WellFormed(s[..k] + s[k + 1..], nextId)
    ensures forall u :: u in s[..k] + s[k + 1..] <==> u in s && u.id != s[k].id
  {
    var r := s[..k] + s[k + 1..];
    assert forall j :: 0 <= j < |r| ==> r[j] == s[if j < k then j else j + 1];
    forall u ensures u in r <==> u in s && u.id != s[k].id {
      if u in s && u.id != s[k].id {
        var j :| 0 <= j < |s| && s[j] == u;
        assert u == r[if j < k then j else j - 1];
      }
    }
  }

  /** With unique ids, at most one task matches `{ _id: id, user: owner }`. */
  lemma OwnedUnique(s: seq<Task>, nextId: TaskId, k: nat, owner: UserId, id: TaskId)
    requires WellFormed(s, nextId) && k < |s| && Owns(s[k], owner, id)
    ensures forall j :: 0 <= j < |s| && Owns(s[j], owner, id) ==> j == k
  {
  }

  /** The task collection. `nextId` stands for ObjectId generation: every id
      handed out is new. */
  class TaskStore {
    var tasks: seq<Task>
    var nextId: TaskId

    ghost predicate Valid()
      reads this
    {
      WellFormed(tasks, nextId)
    }

    constructor ()
      ensures Valid() && tasks == []
    {
      tasks := [];
      nextId := 0;
    }

    /** GET: the caller's tasks, newest first. */
    function List(owner: UserId): (r: seq<Task>)
      reads this
      ensures NewestFirst(r)
      ensures forall t :: t in r <==> t in tasks && t.owner == owner
      ensures multiset(r) == multiset(OwnedBy(tasks, owner))
    {
      var owned := OwnedBy(tasks, owner);
      var r := SortNewestFirst(owned);
      assert forall t :: t in r <==> t in owned by {
        forall t ensures t in r <==> t in owned {
          assert t in r <==> t in multiset(r);
          assert t in owned <==> t in multiset(owned);
        }
      }
      r
    }

    /** `findOne({ _id: id, user: owner })`: the position of the caller's
        task with that id, or -1. */
    method FindOwned(owner: UserId, id: TaskId) returns (k: int)
      requires Valid()
      ensures -1 <= k < |tasks|
      ensures k >= 0 ==> Owns(tasks[k], owner, id)
      ensures k >= 0 ==> forall j :: 0 <= j < |tasks| && j != k ==> tasks[j].id != id
      ensures k < 0 ==> forall j :: 0 <= j < |tasks| ==> !Owns(tasks[j], owner, id)
    {
      k := 0;
      while k < |tasks|
        invariant 0 <= k <= |tasks|
        invariant forall j :: 0 <= j < k ==> !Owns(tasks[j], owner, id)
      {
        if Owns(tasks[k], owner, id) {
          return;
        }
        k := k + 1;
      }
      k := -1;
    }

    /** POST: a blank or missing title is refused with 400; otherwise one new
        task, owned by the caller, not completed, created now, is appended
        and returned with 201. */
    method Create(owner: UserId, title: Option<string>, now: Time) returns (r: Response)
      requires Valid()
      modifies this
      ensures Valid()
      ensures TitleMissing(title) ==>
        r == BadRequest(TitleRequired) && tasks == old(tasks) && nextId == old(nextId)
      ensures !TitleMissing(title) ==>
        r == Created(Task(old(nextId), Trim(title.value), false, now, owner)) &&
        tasks == old(tasks) + [r.task]
      ensures r.Created? ==> forall t :: t in old(tasks) ==> t.id != r.task.id
      ensures r.Created? ==> r.task in List(owner)
      ensures forall o :: o != owner ==> OwnedBy(tasks, o) == OwnedBy(old(tasks), o)
    {
      if TitleMissing(title) {
        return BadRequest(TitleRequired);
      }
      var doc := NewDocument(nextId, owner, Fields(Some(Trim(title.value)), None, None), now);
      TrimIdempotent(title.value);
      assert doc == Task(nextId, Trim(title.value), false, now, owner);
      var saved := Save(doc);
      var task := saved.value;
      assert Stored(task);
      AppendWellFormed(tasks, task, nextId);
      forall o | o != owner ensures OwnedBy(tasks + [task], o) == OwnedBy(tasks, o) {
        OwnedByAppendOther(tasks, task, o);
      }
      tasks := tasks + [task];
      nextId := nextId + 1;
      r := Created(task);
    }

    /** PUT: an id the caller does not own is 404; a supplied title that
        trims to nothing makes `save` fail, which is 400; otherwise exactly
        that task is patched and returned with 200. */
    method Update(owner: UserId, id: TaskId, body: UpdateBody) returns (r: Response)
      requires Valid()
      modifies this
      ensures Valid() && nextId == old(nextId)
      ensures (forall k :: 0 <= k < |old(tasks)| ==> !Owns(old(tasks)[k], owner, id)) ==>
        r == NotFound(TaskNotFound) && tasks == old(tasks)
      ensures forall k :: 0 <= k < |old(tasks)| && Owns(old(tasks)[k], owner, id) ==>
        if body.title.Some? && AllSpace(body.title.value)
        then r == BadRequest(TitleRequiredMessage) && tasks == old(tasks)
        else r == Updated(Patch(old(tasks)[k], body)) && tasks == old(tasks)[k := r.task]
      ensures forall o :: o != owner ==> OwnedBy(tasks, o) == OwnedBy(old(tasks), o)
    {
      var k := FindOwned(owner, id);
      if k < 0 {
        return NotFound(TaskNotFound);
      }
      OwnedUnique(tasks, nextId, k, owner, id);
      var doc := Patch(tasks[k], body);
      PatchSaves(tasks[k], body);
      PatchChangesOnlySupplied(tasks[k], body);
      match Save(doc)
      case Err(message) =>
        r := BadRequest(message);
      case Ok(saved) =>
        ReplaceWellFormed(tasks, k, saved, nextId);
        forall o | o != owner ensures OwnedBy(tasks[k := saved], o) == OwnedBy(tasks, o) {
          OwnedByUpdateOther(tasks, k, saved, o);
        }
        tasks := tasks[k := saved];
        r := Updated(saved);
    }

    /** DELETE: an id the caller does not own is 404; otherwise exactly that
        task is removed, the others keep their order, and the requested id
        is echoed back. */
    method Delete(owner: UserId, id: TaskId) returns (r: Response)
      requires Valid()
      modifies this
      ensures Valid() && nextId == old(nextId)
      ensures (forall k :: 0 <= k < |old(tasks)| ==> !Owns(old(tasks)[k], owner, id)) ==>
        r == NotFound(TaskNotFound) && tasks == old(tasks)
      ensures forall k :: 0 <= k < |old(tasks)| && Owns(old(tasks)[k], owner, id) ==>
        r == Deleted(DeletedMessage, id) && tasks == old(tasks)[..k] + old(tasks)[k + 1..]
      ensures r.Deleted? ==> forall t :: t in tasks <==> t in old(tasks) && t.id != id
      ensures forall o :: o != owner ==> OwnedBy(tasks, o) == OwnedBy(old(tasks), o)
    {
      var k := FindOwned(owner, id);
      if k < 0 {
        return NotFound(TaskNotFound);
      }
      OwnedUnique(tasks, nextId, k, owner, id);
      RemoveWellFormed(tasks, k, nextId);
      forall o | o != owner ensures OwnedBy(tasks[..k] + tasks[k + 1..], o) == OwnedBy(tasks, o) {
        OwnedByRemoveOther(tasks, k, o);
      }
      tasks := tasks[..k] + tasks[k + 1..];
      r := Deleted(DeletedMessage, id);
    }
  }

  /** Sending the same PUT body twice leaves the collection and the answer
      as a single PUT did. */
  method RepeatedUpdate(store: TaskStore, owner: UserId, id: TaskId, body: UpdateBody)
    returns (first: Response, second: Response)
    requires store.Valid()
    modifies store
    ensures store.Valid()
    ensures second == first
    ensures !first.Updated? ==> store.tasks == old(store.tasks)
    ensures first.Updated? ==>
      exists k :: 0 <= k < |old(store.tasks)| && Owns(old(store.tasks)[k], owner, id) &&
        store.tasks == old(store.tasks)[k := first.task]
  {
    ghost var before := store.tasks;
    ghost var issued := store.nextId;
    first := store.Update(owner, id, body);
    ghost var once := store.tasks;
    second := store.Update(owner, id, body);
    if exists k :: 0 <= k < |before| && Owns(before[k], owner, id) {
      var k :| 0 <= k < |before| && Owns(before[k], owner, id);
      var patched := Patch(before[k], body);
      PatchIdempotent(before[k], body);
      PatchChangesOnlySupplied(before[k], body);
      if body.title.Some? && AllSpace(body.title.value) {
        assert once == before;
      } else {
        assert once == before[k := patched] && first == Updated(patched);
        assert once[k] == patched && Owns(patched, owner, id);
        assert Patch(once[k], body) == patched;
        assert once[k := patched] == once;
      }
    }
    assert store.tasks == once;
  }
}
