/**
 * The send guards of the modular client's forms: `addProject` (client/js/project.js and,
 * with the same logic, client/js/home.js), the nested `addTodo` of project.js, the flat
 * `addTodo` of todo.js and the partial `updateTodoPriority` of project.js. Each turns
 * the values in the inputs into the message sent, if any, and the inputs afterwards.
 */
module Forms {
  import opened Wrappers
  import opened Records
  import Text

  /** What submitting a one-field form does: the message sent, the input afterwards, whether an alert is shown. */
  datatype Submission = Submission(sent: Option<Command>, input: string, alerted: bool)

  /**
   * `addProject()`: with a non-blank trimmed name and an open socket, ADD_PROJECT with the
   * trimmed name is sent and the input cleared; otherwise nothing is sent, the input is
   * kept and an alert explains why.
   */
  function AddProjectRequest(input: string, socketOpen: bool): (r: Submission)
    ensures r.sent.Some? <==> Text.Trim(input) != "" && socketOpen
    ensures r.sent.Some? ==> r.sent.value == AddProjectCmd(Text.Trim(input)) && r.input == ""
    ensures r.sent.None? ==> r.input == input
    ensures r.alerted <==> r.sent.None?
  {
    var name := Text.Trim(input);
    if name != "" && socketOpen then Submission(Some(AddProjectCmd(name)), "", false)
    else Submission(None, input, true)
  }

  /** A project name that is sent is not empty and has no white space at either end. */
  lemma AddProjectNameTrimmed(input: string, socketOpen: bool)
    requires AddProjectRequest(input, socketOpen).sent.Some?
    ensures
      var name := AddProjectRequest(input, socketOpen).sent.value.name;
      && name != [] && !Text.IsSpace(name[0]) && !Text.IsSpace(name[|name| - 1])
      && Text.Trim(name) == name
  {
    Text.TrimIdempotent(input);
  }

  /** The new-todo inputs: text, assignee select ('' for none), priority select and date ('' is `None`). */
  datatype TodoForm = TodoForm(text: string, assignee: string, priority: Priority, dueDate: Option<int>)

  /** The inputs after a successful submission: empty text, no assignee, 'low', no date. */
  const ClearedTodoForm := TodoForm("", "", Low, None)

  datatype TodoSubmission = TodoSubmission(sent: Option<Command>, form: TodoForm, alerted: bool)

  /**
   * `addTodo(pid)` of project.js: with a non-blank trimmed text, ADD_TODO carrying the
   * todo nested under `todo` (trimmed text, the selects' values, `completed` false) is
   * sent and the inputs are reset; otherwise an alert, and nothing changes.
   */
  function AddTodoRequest(pid: string, form: TodoForm): (r: TodoSubmission)
    ensures r.sent.Some? <==> Text.Trim(form.text) != ""
    ensures r.sent.Some? ==>
      && r.sent.value.AddTodoCmd? && r.sent.value.projectId == pid
      && r.sent.value.draft == Some(Draft(Text.Trim(form.text), form.assignee, form.priority, form.dueDate, false))
      && r.form == ClearedTodoForm
    ensures r.sent.Some? ==>
      var c := r.sent.value;
      c.text.None? && c.assignee.None? && c.priority.None? && c.dueDate.None?
    ensures r.sent.None? ==> r.form == form && r.alerted
    ensures r.sent.Some? ==> !r.alerted
  {
    var text := Text.Trim(form.text);
    if text != "" then
      TodoSubmission(Some(AddTodoCmd(pid, None, None, None, None, Some(Draft(text, form.assignee, form.priority, form.dueDate, false)))),
                     ClearedTodoForm, false)
    else TodoSubmission(None, form, true)
  }

  /**
   * `addTodo(pid)` of todo.js: the same guard, but the fields travel flat, which is what
   * the server's ADD_TODO reads; a blank text is ignored without an alert.
   */
  function AddTodoFlatRequest(pid: string, form: TodoForm): (r: TodoSubmission)
    ensures r.sent.Some? <==> Text.Trim(form.text) != ""
    ensures r.sent.Some? ==>
      && r.sent.value == AddTodoCmd(pid, Some(Text.Trim(form.text)), Some(form.assignee),
                                    Some(form.priority), form.dueDate, None)
      && r.form == ClearedTodoForm
    ensures r.sent.None? ==> r.form == form
    ensures !r.alerted
  {
    var text := Text.Trim(form.text);
    if text != "" then
      TodoSubmission(Some(AddTodoCmd(pid, Some(text), Some(form.assignee), Some(form.priority), form.dueDate, None)),
                     ClearedTodoForm, false)
    else TodoSubmission(None, form, false)
  }

  /** The two forms send for exactly the same inputs; only the shape of the message differs. */
  lemma AddTodoFormsAgree(pid: string, form: TodoForm)
    ensures AddTodoRequest(pid, form).sent.Some? <==> AddTodoFlatRequest(pid, form).sent.Some?
    ensures AddTodoRequest(pid, form).form == AddTodoFlatRequest(pid, form).form
  {
  }

  /**
   * `updateTodoPriority(todoId, priority)` of project.js: UPDATE_TODO with a partial todo
   * of only the id and the priority, and no project id (the server reads the key
   * "undefined").
   */
  function PartialPriorityUpdate(todoId: string, priority: Priority): (r: Command)
    ensures r.UpdateTodoCmd? && r.targetProject.None? && JsKey(r.targetProject) == "undefined"
    ensures r.todo.id == todoId && r.todo.priority == Some(priority)
    ensures r.todo.text.None? && r.todo.assignee.None? && r.todo.dueDate.None? && !r.todo.completed
  {
    UpdateTodoCmd(None, Todo(todoId, None, false, None, Some(priority), None))
  }
}
