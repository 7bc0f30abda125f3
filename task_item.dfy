/** One row of the list, client/src/components/TaskItem.jsx: two state cells,
    `isEditing` and `editValue`, and the callbacks the row hands to its
    parent. A callback the row invokes is returned instead of called. */
module TaskItemView {
  import opened Text
  import opened TaskModel

  /** `onEdit(task._id, trimmed)`. */
  datatype Edit = Edit(id: TaskId, title: string)

  /** The keyboard keys the edit input reacts to; `e.key` is compared with
      these two names. */
  const EnterKey: string := "Enter"
  const EscapeKey: string := "Escape"

  class TaskItem {
    /** The `task` prop. */
    var task: Task
    var isEditing: bool
    var editValue: string

    /** First render: not editing, the input primed with the title. */
    constructor (task: Task)
      ensures this.task == task && !isEditing && editValue == task.title
    {
      this.task := task;
      isEditing := false;
      editValue := task.title;
    }

    /** A re-render with a new `task` prop keeps both state cells; their
        initial values are used only on the first render. */
    method ReceiveTask(t: Task)
      modifies this
      ensures task == t && isEditing == old(isEditing) && editValue == old(editValue)
    {
      task := t;
    }

    /** The Edit button, `disabled={task.completed}`: edit mode can be entered
        only while the task is open. */
    method BeginEdit()
      modifies this
      ensures isEditing == (old(isEditing) || !task.completed)
      ensures task == old(task) && editValue == old(editValue)
    {
      if !task.completed {
        isEditing := true;
      }
    }

    /** The edit input's `onChange`. */
    method ChangeEditValue(value: string)
      modifies this
      ensures editValue == value && task == old(task) && isEditing == old(isEditing)
    {
      editValue := value;
    }

    /** `handleEditSubmit`: sends the trimmed text, and only when it is
        non-empty and differs from the current title; a refused submit puts
        the title back into the input. Edit mode ends either way. */
    method EditSubmit() returns (edit: Option<Edit>)
      modifies this
      ensures task == old(task) && !isEditing
      ensures edit.Some? <==> !AllSpace(old(editValue)) && Trim(old(editValue)) != task.title
      ensures edit.Some? ==> edit.value == Edit(task.id, Trim(old(editValue)))
      ensures edit.Some? ==> editValue == old(editValue)
      ensures edit.None? ==> editValue == task.title
    {
      var trimmed := Trim(editValue);
      if trimmed == [] || trimmed == task.title {
        editValue := task.title;
        isEditing := false;
        return None;
      }
      edit := Some(Edit(task.id, trimmed));
      isEditing := false;
    }

    /** `handleEditCancel`: restores the title and leaves edit mode without
        sending anything. */
    method EditCancel()
      modifies this
      ensures task == old(task) && !isEditing && editValue == task.title
    {
      editValue := task.title;
      isEditing := false;
    }

    /** `handleKeyDown`: Enter submits, Escape cancels, any other key does
        nothing. */
    method KeyDown(key: string) returns (edit: Option<Edit>)
      modifies this
      ensures task == old(task)
      ensures key == EnterKey ==> (
        && !isEditing
        && (edit.Some? <==> !AllSpace(old(editValue)) && Trim(old(editValue)) != task.title)
        && (edit.Some? ==> edit.value == Edit(task.id, Trim(old(editValue))))
        && (edit.Some? ==> editValue == old(editValue))
        && (edit.None? ==> editValue == task.title))
      ensures key == EscapeKey ==> !isEditing && editValue == task.title && edit == None
      ensures key != EnterKey && key != EscapeKey ==>
        edit == None && isEditing == old(isEditing) && editValue == old(editValue)
    {
      edit := None;
      if key == EnterKey {
        edit := EditSubmit();
      }
      if key == EscapeKey {
        EditCancel();
      }
    }

    /** The checkbox: `onToggle(task._id, !task.completed)`. */
    function ToggleRequest(): (r: (TaskId, bool))
      reads this
      ensures r.0 == task.id && r.1 != task.completed
    {
      (task.id, !task.completed)
    }
  }
}
