/** The todo component's state and its event handlers. Each handler is one
    atomic transition from the old state to the new one. */
module TodoComponent {
  import opened TaskList
  import opened FormState

  const EMPTY_TITLE_ALERT := "Enter your task name!"

  datatype Option<T> = None | Some(value: T)

  /** What a submit reports: nothing, or the alert shown for an empty title. */
  datatype Feedback = Accepted | Alert(message: string)

  class Todo {
    var tasks: seq<Task>
    var isEditing: bool
    /** The snapshot of the task being edited, taken when its edit button was clicked. */
    var currentTask: Option<Task>
    var formData: Form

    /** Edit mode always has a task snapshot to edit, and create mode none. */
    ghost predicate Valid()
      reads this
    {
      isEditing <==> currentTask.Some?
    }

    /** Mount: the seed list, create mode, and the default form. */
    constructor (seed: seq<Task>)
      ensures Valid()
      ensures tasks == seed && !isEditing && currentTask == None && formData == DEFAULT_FORM
    {
      tasks := seed;
      isEditing := false;
      currentTask := None;
      formData := DEFAULT_FORM;
    }

    /** An input change: exactly the named form field takes the new value. */
    method HandleInputChange(field: Field, value: string)
      requires Valid()
      modifies this
      ensures Valid()
      ensures formData == SetField(old(formData), field, value)
      ensures tasks == old(tasks) && isEditing == old(isEditing) && currentTask == old(currentTask)
    {
      formData := SetField(formData, field, value);
    }

    /** The form submit. In edit mode the title of the edited task is rewritten
        (even to an empty title) and the form leaves edit mode; in create mode a
        non-empty title appends a new task and anything else raises the alert. */
    method Submit() returns (feedback: Feedback)
      requires Valid()
      modifies this
      ensures Valid()
      ensures old(isEditing) ==>
                && tasks == RenameTasks(old(tasks), old(currentTask).value.id, old(formData).title)
                && !isEditing && currentTask == None && formData == DEFAULT_FORM
                && feedback == Accepted
      ensures !old(isEditing) && old(formData).title != "" ==>
                && tasks == AddTask(old(tasks), old(formData).title)
                && !isEditing && currentTask == old(currentTask) && formData == old(formData)
                && feedback == Accepted
      ensures !old(isEditing) && old(formData).title == "" ==>
                && tasks == old(tasks)
                && !isEditing && currentTask == old(currentTask) && formData == old(formData)
                && feedback == Alert(EMPTY_TITLE_ALERT)
      ensures IdsIncreasing(old(tasks)) ==> IdsIncreasing(tasks)
    {
      var value := formData.title;
      var temp := tasks;
      if isEditing {
        var updatedTasks := RenameTasks(temp, currentTask.value.id, value);
        if IdsIncreasing(tasks) {
          RenameKeepsIdsIncreasing(temp, currentTask.value.id, value);
        }
        tasks := updatedTasks;
        isEditing := false;
        currentTask := None;
        formData := DEFAULT_FORM;
        feedback := Accepted;
      } else {
        var id := NextId(tasks);
        if value != "" {
          temp := temp + [NewTask(id, value)];
          tasks := temp;
          feedback := Accepted;
        } else {
          feedback := Alert(EMPTY_TITLE_ALERT);
        }
      }
    }

    /** An edit click: enter edit mode on the task and load its fields into the form. */
    method HandleEditClick(task: Task)
      requires Valid()
      modifies this
      ensures Valid()
      ensures isEditing && currentTask == Some(task)
      ensures Get(formData, Title) == task.title
      ensures Get(formData, Status) == task.status
      ensures Get(formData, Priority) == task.priority
      ensures tasks == old(tasks)
    {
      isEditing := true;
      currentTask := Some(task);
      formData := Form(task.title, task.status, task.priority);
    }

    /** A complete click: every task with the id gets status "Complete". */
    method CompleteClick(id: int)
      requires Valid()
      modifies this
      ensures Valid()
      ensures tasks == CompleteTasks(old(tasks), id)
      ensures isEditing == old(isEditing) && currentTask == old(currentTask) && formData == old(formData)
      ensures IdsIncreasing(old(tasks)) ==> IdsIncreasing(tasks)
    {
      if IdsIncreasing(tasks) {
        CompleteKeepsIdsIncreasing(tasks, id);
      }
      tasks := CompleteTasks(tasks, id);
    }

    /** A delete click: the tasks with the id are filtered out; the form, and
        an edit in progress, are left as they are. */
    method RemoveClick(id: int)
      requires Valid()
      modifies this
      ensures Valid()
      ensures tasks == RemoveTasks(old(tasks), id)
      ensures isEditing == old(isEditing) && currentTask == old(currentTask) && formData == old(formData)
      ensures IdsIncreasing(old(tasks)) ==> IdsIncreasing(tasks)
      ensures IdsIncreasing(old(tasks)) && HasId(old(tasks), id) ==> |tasks| == |old(tasks)| - 1
    {
      if IdsIncreasing(tasks) {
        RemoveKeepsIdsIncreasing(tasks, id);
        if HasId(tasks, id) {
          IncreasingIdsAreUnique(tasks);
          var k :| 0 <= k < |tasks| && tasks[k].id == id;
          RemoveDropsExactlyOne(tasks, k);
        }
      }
      tasks := RemoveTasks(tasks, id);
    }
  }

  /** A session from an empty list: create two tasks, complete the first,
      delete the second, edit the first, submit an empty title, and delete
      a task while it is being edited. */
  method TwoTaskSession()
  {
    var todo := new Todo([]);
    todo.HandleInputChange(Title, "Buy milk");
    var feedback := todo.Submit();
    assert feedback == Accepted;
    assert todo.tasks == [Task(1, "Buy milk", PENDING, DEFAULT_PRIORITY)];
    todo.HandleInputChange(Title, "Walk dog");
    feedback := todo.Submit();
    assert todo.tasks[1] == Task(2, "Walk dog", PENDING, DEFAULT_PRIORITY);
    todo.CompleteClick(1);
    todo.RemoveClick(2);
    assert todo.tasks == [Task(1, "Buy milk", COMPLETE, DEFAULT_PRIORITY)];

    // Editing keeps the status; only the title comes from the form.
    todo.HandleEditClick(todo.tasks[0]);
    todo.HandleInputChange(Status, "pending");
    todo.HandleInputChange(Title, "Buy oat milk");
    feedback := todo.Submit();
    assert todo.tasks == [Task(1, "Buy oat milk", COMPLETE, DEFAULT_PRIORITY)];
    assert !todo.isEditing && todo.formData == DEFAULT_FORM;

    // An empty title is refused on create.
    feedback := todo.Submit();
    assert feedback == Alert(EMPTY_TITLE_ALERT) && |todo.tasks| == 1;

    // Deleting the task being edited: the submit then changes no task.
    todo.HandleEditClick(todo.tasks[0]);
    todo.RemoveClick(1);
    feedback := todo.Submit();
    assert todo.tasks == [] && !todo.isEditing;
  }
}
