/** The task state of client/src/App.jsx: the list updaters that run once a
    server call has answered, the derived counts of the stats bar, and the
    handlers that sequence them. A server call's outcome is a parameter. */
module App {
  import opened TaskModel

  /** What an awaited API call gives: the parsed body, or the message of the
      error it threw. */
  datatype Reply<T> = Success(data: T) | Failure(message: string)

  /** `a` is `b` with some entries left out, the rest in their order. */
  predicate IsSubsequence(a: seq<Task>, b: seq<Task>)
  {
    a == [] || (b != [] && ((a[0] == b[0] && IsSubsequence(a[1..], b[1..])) || IsSubsequence(a, b[1..])))
  }

  /** `prev.map((t) => (t._id === id ? updated : t))`, after a toggle or an
      edit. */
  function ReplaceById(s: seq<Task>, id: TaskId, updated: Task): (r: seq<Task>)
    ensures |r| == |s|
    ensures forall i :: 0 <= i < |s| ==> r[i] == (if s[i].id == id then updated else s[i])
  {
    if s == [] then []
    else [if s[0].id == id then updated else s[0]] + ReplaceById(s[1..], id, updated)
  }

  /** `prev.filter((t) => t._id !== id)`, after a delete. */
  function RemoveById(s: seq<Task>, id: TaskId): (r: seq<Task>)
    ensures forall t :: t in r <==> t in s && t.id != id
    ensures IsSubsequence(r, s)
  {
    if s == [] then []
    else if s[0].id != id then
      var rest := RemoveById(s[1..], id);
      assert ([s[0]] + rest)[1..] == rest;
      [s[0]] + rest
    else RemoveById(s[1..], id)
  }

  /** `tasks.filter((t) => t.completed).length`. */
  function CompletedCount(s: seq<Task>): (n: nat)
    ensures n <= |s|
    ensures n == |s| <==> forall i :: 0 <= i < |s| ==> s[i].completed
  {
    if s == [] then 0
    else (if s[0].completed then 1 else 0) + CompletedCount(s[1..])
  }

  /** `total - completed`. */
  function RemainingCount(s: seq<Task>): (n: nat)
  {
    |s| - CompletedCount(s)
  }

  /** The tasks still open, counted on their own. */
  function OpenCount(s: seq<Task>): nat
  {
    if s == [] then 0
    else (if s[0].completed then 0 else 1) + OpenCount(s[1..])
  }

  /** The "remaining" figure is the number of open tasks, so done and
      remaining together account for every task. */
  lemma {:induction false} RemainingIsOpen(s: seq<Task>)
    ensures RemainingCount(s) == OpenCount(s)
    ensures CompletedCount(s) + RemainingCount(s) == |s|
  {
    if s != [] {
      RemainingIsOpen(s[1..]);
    }
  }

  /** Toggling one task moves it between done and remaining and leaves the
      total alone. */
  lemma {:induction false} ToggleMovesOneTask(s: seq<Task>, k: nat)
    requires k < |s|
    ensures var t := s[k].(completed := !s[k].completed);
      CompletedCount(s[k := t]) ==
        if t.completed then CompletedCount(s) + 1 else CompletedCount(s) - 1
  {
    if k > 0 {
      assert s[k := s[k].(completed := !s[k].completed)][1..] ==
        s[1..][k - 1 := s[k].(completed := !s[k].completed)];
      ToggleMovesOneTask(s[1..], k - 1);
    } else {
      assert s[k := s[k].(completed := !s[k].completed)][1..] == s[1..];
    }
  }

  class AppState {
    var tasks: seq<Task>
    var loading: bool
    var adding: bool
    var error: Option<string>

    /** The initial `useState` values. */
    constructor ()
      ensures tasks == [] && loading && !adding && error == None
    {
      tasks := [];
      loading := true;
      adding := false;
      error := None;
    }

    /** `loadTasks`: clears the error, then either takes the server's list
        or records the failure; `loading` ends false either way. */
    method LoadTasks(reply: Reply<seq<Task>>)
      modifies this
      ensures !loading && adding == old(adding)
      ensures reply.Success? ==> tasks == reply.data && error == None
      ensures reply.Failure? ==> tasks == old(tasks) && error == Some(reply.message)
    {
      error := None;
      match reply {
        case Success(data) =>
          tasks := data;
        case Failure(message) =>
          error := Some(message);
      }
      loading := false;
    }

    /** `handleAdd`: the created task goes to the top of the list; a failure
        raises an alert and leaves the list alone. */
    method HandleAdd(reply: Reply<Task>) returns (alert: Option<string>)
      modifies this
      ensures !adding && loading == old(loading) && error == old(error)
      ensures reply.Success? ==> tasks == [reply.data] + old(tasks) && alert == None
      ensures reply.Failure? ==>
        tasks == old(tasks) && alert == Some("Failed to add task: " + reply.message)
    {
      adding := true;
      alert := None;
      match reply {
        case Success(newTask) =>
          tasks := [newTask] + tasks;
        case Failure(message) =>
          alert := Some("Failed to add task: " + message);
      }
      adding := false;
    }

    /** `handleToggle`: the entry with that id becomes the server's updated
        task. */
    method HandleToggle(id: TaskId, reply: Reply<Task>) returns (alert: Option<string>)
      modifies this
      ensures loading == old(loading) && adding == old(adding) && error == old(error)
      ensures reply.Success? ==> tasks == ReplaceById(old(tasks), id, reply.data) && alert == None
      ensures reply.Failure? ==>
        tasks == old(tasks) && alert == Some("Failed to update task: " + reply.message)
    {
      match reply
      case Success(updated) =>
        tasks := ReplaceById(tasks, id, updated);
        alert := None;
      case Failure(message) =>
        alert := Some("Failed to update task: " + message);
    }

    /** `handleEdit`: as a toggle, with its own alert text. */
    method HandleEdit(id: TaskId, reply: Reply<Task>) returns (alert: Option<string>)
      modifies this
      ensures loading == old(loading) && adding == old(adding) && error == old(error)
      ensures reply.Success? ==> tasks == ReplaceById(old(tasks), id, reply.data) && alert == None
      ensures reply.Failure? ==>
        tasks == old(tasks) && alert == Some("Failed to edit task: " + reply.message)
    {
      match reply
      case Success(updated) =>
        tasks := ReplaceById(tasks, id, updated);
        alert := None;
      case Failure(message) =>
        alert := Some("Failed to edit task: " + message);
    }

    /** `handleDelete`: declining the confirmation sends nothing and changes
        nothing; otherwise a successful call drops the entries with that
        id. The reply is only looked at once the request was sent. */
    method HandleDelete(id: TaskId, confirmed: bool, reply: Reply<()>)
      returns (requested: bool, alert: Option<string>)
      modifies this
      ensures loading == old(loading) && adding == old(adding) && error == old(error)
      ensures requested == confirmed
      ensures !confirmed ==> tasks == old(tasks) && alert == None
      ensures confirmed && reply.Success? ==> tasks == RemoveById(old(tasks), id) && alert == None
      ensures confirmed && reply.Failure? ==>
        tasks == old(tasks) && alert == Some("Failed to delete task: " + reply.message)
    {
      alert := None;
      if !confirmed {
        return false, None;
      }
      requested := true;
      match reply
      case Success(_) =>
        tasks := RemoveById(tasks, id);
      case Failure(message) =>
        alert := Some("Failed to delete task: " + message);
    }

    /** The three figures of the stats bar. */
    function Stats(): (r: (nat, nat, nat))
      reads this
      ensures r.0 == |tasks|
      ensures r.1 <= r.0 && r.1 + r.2 == r.0
      ensures r.2 == OpenCount(tasks)
    {
      RemainingIsOpen(tasks);
      (|tasks|, CompletedCount(tasks), RemainingCount(tasks))
    }
  }
}
