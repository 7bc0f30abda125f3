/** The add form, client/src/components/TaskForm.jsx: one state cell, the
    `title` typed so far. The `onAdd` call it makes is returned. */
module TaskFormView {
  import opened Text
  import opened TaskModel

  class TaskForm {
    var title: string

    constructor ()
      ensures title == []
    {
      title := [];
    }

    /** The input's `onChange`. */
    method ChangeTitle(value: string)
      modifies this
      ensures title == value
    {
      title := value;
    }

    /** `handleSubmit`: a white-space-only title is not sent and the input is
        kept; otherwise the trimmed title goes to `onAdd` and the input is
        cleared. */
    method Submit() returns (added: Option<string>)
      modifies this
      ensures added.Some? <==> !AllSpace(old(title))
      ensures added.Some? ==> added.value == Trim(old(title)) && title == []
      ensures added.None? ==> title == old(title)
    {
      var trimmed := Trim(title);
      if trimmed == [] {
        return None;
      }
      added := Some(trimmed);
      title := [];
    }

    /** The submit button is enabled, `!(loading || !title.trim())`, exactly
        when no add is in flight and the title has a non-space character. */
    predicate CanSubmit(loading: bool)
      reads this
      ensures CanSubmit(loading) <==> !loading && !AllSpace(title)
    {
      !(loading || Trim(title) == [])
    }
  }
}
