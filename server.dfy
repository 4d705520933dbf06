/**
 * The server's in-memory store (server/server.js): the `projects` list, the `todos` map
 * from project id to todo list and the `projectAssignees` map from project id to names.
 * Every mutator changes them in place and broadcasts events; a broadcast is an append to
 * `outbox`. Ids that the server draws from `Date.now()` are supplied by the caller.
 */
module Server {
  import opened Wrappers
  import opened Records
  import Lists
  import Progress
  import Forms

  /**
   * `updateProjectProgress(pid)` on projects `ps` once the todo map is `ts`: the projects
   * afterwards and the events it broadcasts. It runs only when a project with that id
   * exists and the map has a list for it, and then rewrites the first such project's
   * `progress` only.
   */
  function WithProgress(ps: seq<Project>, ts: map<string, seq<Todo>>, pid: string): (r: (seq<Project>, seq<Event>))
    ensures |r.0| == |ps|
    ensures forall k :: 0 <= k < |ps| ==> r.0[k].id == ps[k].id && r.0[k].name == ps[k].name
    ensures r.1 == [] <==> ProjectIndex(ps, pid) == -1 || pid !in ts
    ensures r.1 == [] ==> r.0 == ps
    ensures r.1 != [] ==>
      var i := ProjectIndex(ps, pid);
      && r.1 == [ProjectUpdated(r.0[i])]
      && r.0[i].progress == Some(Progress.ProgressOf(ts[pid]))
      && forall k :: 0 <= k < |ps| && k != i ==> r.0[k] == ps[k]
  {
    var i := ProjectIndex(ps, pid);
    if i != -1 && pid in ts then
      var p := ps[i].(progress := Some(Progress.ProgressOf(ts[pid])));
      (ps[i := p], [ProjectUpdated(p)])
    else
      (ps, [])
  }

  class Store {
    var projects: seq<Project>
    var todos: map<string, seq<Todo>>
    var assignees: map<string, seq<string>>
    /** Every broadcast, oldest first. */
    var outbox: seq<Event>

    /**
     * What the mutators keep: every project id has a todo list and an assignee list, and
     * no assignee list names anyone twice.
     */
    ghost predicate Valid()
      reads this
    {
      && (forall k :: 0 <= k < |projects| ==> projects[k].id in todos && projects[k].id in assignees)
      && (forall pid :: pid in assignees ==> Lists.NoDuplicates(assignees[pid]))
    }

    /** The module-level `let projects = []; let todos = {}; let projectAssignees = {};`. */
    constructor()
      ensures Valid()
      ensures projects == [] && todos == map[] && assignees == map[] && outbox == []
    {
      projects, todos, assignees, outbox := [], map[], map[], [];
    }

    /** The FULL_STATE_UPDATE a newly connected client receives: the store as it stands. */
    method Connect() returns (e: Event)
      ensures e.FullStateUpdate?
      ensures e.projects == projects && e.todos == todos && e.projectAssignees == Some(assignees)
    {
      e := FullStateUpdate(projects, todos, Some(assignees));
    }

    /**
     * `addProject(name)`: appends a project with progress 0 under the supplied id, gives it
     * empty todo and assignee lists (replacing any under that id) and broadcasts it.
     */
    method AddProject(name: string, id: string)
      requires Valid()
      modifies this
      ensures Valid()
      ensures projects == old(projects) + [Project(id, Some(name), Some(0))]
      ensures todos == old(todos)[id := []]
      ensures assignees == old(assignees)[id := []]
      ensures outbox == old(outbox) + [ProjectAdded(Project(id, Some(name), Some(0)))]
    {
      var p := Project(id, Some(name), Some(0));
      projects := projects + [p];
      todos := todos[id := []];
      assignees := assignees[id := []];
      outbox := outbox + [ProjectAdded(p)];
    }

    /**
     * `updateProject(patch)`: merges the patch over the first project with its id and
     * broadcasts the result; an unknown id changes nothing and broadcasts nothing.
     */
    method UpdateProject(patch: Project)
      requires Valid()
      modifies this
      ensures Valid()
      ensures todos == old(todos) && assignees == old(assignees)
      ensures ProjectIndex(old(projects), patch.id) == -1 ==> projects == old(projects) && outbox == old(outbox)
      ensures ProjectIndex(old(projects), patch.id) != -1 ==>
        var i := ProjectIndex(old(projects), patch.id);
        && projects == old(projects)[i := Merge(old(projects)[i], patch)]
        && outbox == old(outbox) + [ProjectUpdated(Merge(old(projects)[i], patch))]
    {
      var i := ProjectIndex(projects, patch.id);
      if i != -1 {
        var merged := Merge(projects[i], patch);
        projects := projects[i := merged];
        outbox := outbox + [ProjectUpdated(merged)];
      }
    }

    /**
     * `deleteProject(pid)`: removes every project with the id and its todo and assignee
     * lists; PROJECT_DELETED is broadcast even when nothing matched.
     */
    method DeleteProject(pid: string)
      requires Valid()
      modifies this
      ensures Valid()
      ensures projects == WithoutProject(old(projects), pid)
      ensures forall k :: 0 <= k < |projects| ==> projects[k].id != pid
      ensures todos == old(todos) - {pid} && assignees == old(assignees) - {pid}
      ensures outbox == old(outbox) + [ProjectDeleted(pid)]
    {
      projects := WithoutProject(projects, pid);
      todos := todos - {pid};
      assignees := assignees - {pid};
      outbox := outbox + [ProjectDeleted(pid)];
      assert forall k :: 0 <= k < |projects| ==> projects[k] in old(projects);
    }

    /** `updateProjectProgress(pid)`. */
    method UpdateProjectProgress(pid: string)
      requires Valid()
      modifies this
      ensures Valid()
      ensures todos == old(todos) && assignees == old(assignees)
      ensures projects == WithProgress(old(projects), todos, pid).0
      ensures outbox == old(outbox) + WithProgress(old(projects), todos, pid).1
    {
      var i := ProjectIndex(projects, pid);
      if i != -1 && pid in todos {
        var p := projects[i].(progress := Some(Progress.ProgressOf(todos[pid])));
        projects := projects[i := p];
        outbox := outbox + [ProjectUpdated(p)];
      }
    }

    /**
     * `addTodo(pid, text, assignee, priority, dueDate)`: appends an uncompleted todo under
     * the supplied id (creating the list if missing), recomputes the project's progress and
     * then broadcasts TODO_ADDED, so PROJECT_UPDATED goes out first.
     */
    method AddTodo(pid: string, text: Option<string>, assignee: Option<string>,
                   priority: Option<Priority>, dueDate: Option<int>, id: string)
      requires Valid()
      modifies this
      ensures Valid()
      ensures todos == old(todos)[pid := ListOrEmpty(old(todos), pid) + [Todo(id, text, false, assignee, priority, dueDate)]]
      ensures |todos[pid]| == |ListOrEmpty(old(todos), pid)| + 1
      ensures assignees == old(assignees)
      ensures projects == WithProgress(old(projects), todos, pid).0
      ensures outbox == old(outbox) + WithProgress(old(projects), todos, pid).1
                        + [TodoAdded(pid, Todo(id, text, false, assignee, priority, dueDate))]
      ensures ProjectIndex(old(projects), pid) != -1 ==> outbox[|old(outbox)|].ProjectUpdated?
    {
      var t := Todo(id, text, false, assignee, priority, dueDate);
      if pid !in todos {
        todos := todos[pid := []];
      }
      todos := todos[pid := todos[pid] + [t]];
      UpdateProjectProgress(pid);
      outbox := outbox + [TodoAdded(pid, t)];
    }

    /**
     * `updateTodo(pid, todo)`: throws when the map has no list for `pid`; otherwise replaces
     * the first todo with the same id wholesale, recomputes progress and broadcasts
     * TODO_UPDATED, or changes nothing when no todo has that id.
     */
    method UpdateTodo(pid: string, todo: Todo) returns (outcome: Outcome)
      requires Valid()
      modifies this
      ensures Valid()
      ensures assignees == old(assignees)
      ensures outcome == Threw <==> pid !in old(todos)
      ensures ProjectIndex(old(projects), pid) != -1 ==> outcome == Completed
      ensures outcome == Threw ==> unchanged(this)
      ensures pid in old(todos) && TodoIndex(old(todos)[pid], todo.id) == -1 ==>
        projects == old(projects) && todos == old(todos) && outbox == old(outbox)
      ensures pid in old(todos) && TodoIndex(old(todos)[pid], todo.id) != -1 ==>
        var i := TodoIndex(old(todos)[pid], todo.id);
        && todos == old(todos)[pid := old(todos)[pid][i := todo]]
        && projects == WithProgress(old(projects), todos, pid).0
        && outbox == old(outbox) + WithProgress(old(projects), todos, pid).1 + [TodoUpdated(pid, todo)]
    {
      if pid !in todos {
        return Threw;
      }
      outcome := Completed;
      var i := TodoIndex(todos[pid], todo.id);
      if i != -1 {
        todos := todos[pid := todos[pid][i := todo]];
        UpdateProjectProgress(pid);
        outbox := outbox + [TodoUpdated(pid, todo)];
      }
    }

    /**
     * `deleteTodo(pid, todoId)`: throws when the map has no list for `pid`; otherwise
     * removes every todo with the id, recomputes progress and broadcasts TODO_DELETED.
     */
    method DeleteTodo(pid: string, todoId: string) returns (outcome: Outcome)
      requires Valid()
      modifies this
      ensures Valid()
      ensures assignees == old(assignees)
      ensures outcome == Threw <==> pid !in old(todos)
      ensures ProjectIndex(old(projects), pid) != -1 ==> outcome == Completed
      ensures outcome == Threw ==> unchanged(this)
      ensures pid in old(todos) ==>
        && todos == old(todos)[pid := WithoutTodo(old(todos)[pid], todoId)]
        && (forall t :: t in todos[pid] ==> t.id != todoId)
        && projects == WithProgress(old(projects), todos, pid).0
        && outbox == old(outbox) + WithProgress(old(projects), todos, pid).1 + [TodoDeleted(pid, todoId)]
    {
      if pid !in todos {
        return Threw;
      }
      outcome := Completed;
      todos := todos[pid := WithoutTodo(todos[pid], todoId)];
      UpdateProjectProgress(pid);
      outbox := outbox + [TodoDeleted(pid, todoId)];
    }

    /**
     * `addAssignee(pid, name)`: creates the list if missing; appends the name and
     * broadcasts ASSIGNEE_ADDED only when the list does not hold it yet.
     */
    method AddAssignee(pid: string, name: string)
      requires Valid()
      modifies this
      ensures Valid()
      ensures projects == old(projects) && todos == old(todos)
      ensures name in ListOrEmpty(old(assignees), pid) ==>
        assignees == old(assignees) && outbox == old(outbox)
      ensures name !in ListOrEmpty(old(assignees), pid) ==>
        && assignees == old(assignees)[pid := ListOrEmpty(old(assignees), pid) + [name]]
        && outbox == old(outbox) + [AssigneeAdded(pid, name)]
      ensures pid in assignees && name in assignees[pid]
    {
      if pid !in assignees {
        assignees := assignees[pid := []];
      }
      if name !in assignees[pid] {
        assignees := assignees[pid := assignees[pid] + [name]];
        outbox := outbox + [AssigneeAdded(pid, name)];
      }
    }

    /**
     * `deleteAssignee(pid, name)`: when the list exists, removes every occurrence of the name
     * and broadcasts ASSIGNEE_DELETED. Todos assigned to the name keep their `assignee`.
     */
    method DeleteAssignee(pid: string, name: string)
      requires Valid()
      modifies this
      ensures Valid()
      ensures projects == old(projects) && todos == old(todos)
      ensures pid !in old(assignees) ==> assignees == old(assignees) && outbox == old(outbox)
      ensures pid in old(assignees) ==>
        && assignees == old(assignees)[pid := WithoutName(old(assignees)[pid], name)]
        && name !in assignees[pid]
        && outbox == old(outbox) + [AssigneeDeleted(pid, name)]
    {
      if pid in assignees {
        WithoutNameNoDuplicates(assignees[pid], name);
        assignees := assignees[pid := WithoutName(assignees[pid], name)];
        outbox := outbox + [AssigneeDeleted(pid, name)];
      }
    }

    /**
     * The UPDATE_TODO case of the dispatch: only a todo with a non-empty id reaches
     * `updateTodo`, under the key its (possibly missing) project id reads, and a
     * successful update is broadcast a second time.
     */
    method HandleUpdateTodo(target: Option<string>, todo: Todo) returns (outcome: Outcome)
      requires Valid()
      modifies this
      ensures Valid()
      ensures todo.id == "" ==> outcome == Completed && unchanged(this)
      ensures todo.id != "" ==>
        var pid := JsKey(target);
        && (outcome == Threw <==> pid !in old(todos))
        && (outcome == Threw ==> unchanged(this))
        && (outcome == Completed && TodoIndex(old(todos)[pid], todo.id) == -1 ==>
              projects == old(projects) && todos == old(todos) && assignees == old(assignees)
              && outbox == old(outbox) + [TodoUpdated(pid, todo)])
        && (outcome == Completed && TodoIndex(old(todos)[pid], todo.id) != -1 ==>
              && todos == old(todos)[pid := old(todos)[pid][TodoIndex(old(todos)[pid], todo.id) := todo]]
              && projects == WithProgress(old(projects), todos, pid).0
              && outbox == old(outbox) + WithProgress(old(projects), todos, pid).1
                           + [TodoUpdated(pid, todo)] + [TodoUpdated(pid, todo)])
    {
      if todo.id == "" {
        return Completed;
      }
      var pid := JsKey(target);
      outcome := UpdateTodo(pid, todo);
      if outcome == Completed {
        outbox := outbox + [TodoUpdated(pid, todo)];
      }
    }

    /**
     * The `message` handler's dispatch on `type`: each command has the effect of the mutator
     * it calls, with the fresh id in place of `Date.now()`. The server handles no
     * REQUEST_FULL_STATE, GET_MEMO or UPDATE_MEMO: those change nothing. ADD_TODO reads the
     * flat fields only, so a todo nested under `todo` is stored without text, assignee,
     * priority or date. UPDATE_TODO runs only for a todo with a non-empty id, and after
     * `updateTodo` it broadcasts TODO_UPDATED once more. `Threw` is an exception escaping
     * the handler.
     */
    method Handle(cmd: Command, freshId: string) returns (outcome: Outcome)
      requires Valid()
      modifies this
      ensures Valid()
      ensures !cmd.UpdateTodoCmd? && !cmd.DeleteTodoCmd? ==> outcome == Completed
      ensures cmd.RequestFullStateCmd? || cmd.GetMemoCmd? || cmd.UpdateMemoCmd? ==> unchanged(this)
      ensures cmd.AddProjectCmd? ==>
        var p := Project(freshId, Some(cmd.name), Some(0));
        && projects == old(projects) + [p]
        && todos == old(todos)[freshId := []]
        && assignees == old(assignees)[freshId := []]
        && outbox == old(outbox) + [ProjectAdded(p)]
      ensures cmd.UpdateProjectCmd? ==>
        var i := ProjectIndex(old(projects), cmd.project.id);
        && todos == old(todos) && assignees == old(assignees)
        && (i == -1 ==> projects == old(projects) && outbox == old(outbox))
        && (i != -1 ==>
              && projects == old(projects)[i := Merge(old(projects)[i], cmd.project)]
              && outbox == old(outbox) + [ProjectUpdated(Merge(old(projects)[i], cmd.project))])
      ensures cmd.DeleteProjectCmd? ==>
        && projects == WithoutProject(old(projects), cmd.projectId)
        && todos == old(todos) - {cmd.projectId} && assignees == old(assignees) - {cmd.projectId}
        && outbox == old(outbox) + [ProjectDeleted(cmd.projectId)]
      ensures cmd.AddTodoCmd? ==>
        var t := Todo(freshId, cmd.text, false, cmd.assignee, cmd.priority, cmd.dueDate);
        && todos == old(todos)[cmd.projectId := ListOrEmpty(old(todos), cmd.projectId) + [t]]
        && assignees == old(assignees)
        && projects == WithProgress(old(projects), todos, cmd.projectId).0
        && outbox == old(outbox) + WithProgress(old(projects), todos, cmd.projectId).1 + [TodoAdded(cmd.projectId, t)]
      ensures cmd.UpdateTodoCmd? && cmd.todo.id == "" ==> outcome == Completed && unchanged(this)
      ensures cmd.UpdateTodoCmd? && cmd.todo.id != "" ==>
        var pid := JsKey(cmd.targetProject);
        && (outcome == Threw <==> pid !in old(todos))
        && (outcome == Threw ==> unchanged(this))
        && (outcome == Completed && TodoIndex(old(todos)[pid], cmd.todo.id) == -1 ==>
              projects == old(projects) && todos == old(todos) && assignees == old(assignees)
              && outbox == old(outbox) + [TodoUpdated(pid, cmd.todo)])
        && (outcome == Completed && TodoIndex(old(todos)[pid], cmd.todo.id) != -1 ==>
              && todos == old(todos)[pid := old(todos)[pid][TodoIndex(old(todos)[pid], cmd.todo.id) := cmd.todo]]
              && projects == WithProgress(old(projects), todos, pid).0
              && outbox == old(outbox) + WithProgress(old(projects), todos, pid).1
                           + [TodoUpdated(pid, cmd.todo)] + [TodoUpdated(pid, cmd.todo)])
      ensures cmd.DeleteTodoCmd? ==>
        && (outcome == Threw <==> cmd.projectId !in old(todos))
        && (outcome == Threw ==> unchanged(this))
        && (outcome == Completed ==>
              && todos == old(todos)[cmd.projectId := WithoutTodo(old(todos)[cmd.projectId], cmd.todoId)]
              && assignees == old(assignees)
              && projects == WithProgress(old(projects), todos, cmd.projectId).0
              && outbox == old(outbox) + WithProgress(old(projects), todos, cmd.projectId).1
                           + [TodoDeleted(cmd.projectId, cmd.todoId)])
      ensures cmd.AddAssigneeCmd? ==>
        var names := ListOrEmpty(old(assignees), cmd.projectId);
        && projects == old(projects) && todos == old(todos)
        && (cmd.assigneeName in names ==> assignees == old(assignees) && outbox == old(outbox))
        && (cmd.assigneeName !in names ==>
              && assignees == old(assignees)[cmd.projectId := names + [cmd.assigneeName]]
              && outbox == old(outbox) + [AssigneeAdded(cmd.projectId, cmd.assigneeName)])
      ensures cmd.DeleteAssigneeCmd? ==>
        && projects == old(projects) && todos == old(todos)
        && (cmd.projectId !in old(assignees) ==> assignees == old(assignees) && outbox == old(outbox))
        && (cmd.projectId in old(assignees) ==>
              && assignees == old(assignees)[cmd.projectId := WithoutName(old(assignees)[cmd.projectId], cmd.assigneeName)]
              && outbox == old(outbox) + [AssigneeDeleted(cmd.projectId, cmd.assigneeName)])
    {
      outcome := Completed;
      match cmd
      case AddProjectCmd(name) =>
        AddProject(name, freshId);
      case UpdateProjectCmd(project) =>
        UpdateProject(project);
      case DeleteProjectCmd(pid) =>
        DeleteProject(pid);
      case AddTodoCmd(pid, text, assignee, priority, dueDate, _) =>
        AddTodo(pid, text, assignee, priority, dueDate, freshId);
      case UpdateTodoCmd(target, todo) =>
        outcome := HandleUpdateTodo(target, todo);
      case DeleteTodoCmd(pid, todoId) =>
        outcome := DeleteTodo(pid, todoId);
      case AddAssigneeCmd(pid, name) =>
        AddAssignee(pid, name);
      case DeleteAssigneeCmd(pid, name) =>
        DeleteAssignee(pid, name);
      case RequestFullStateCmd =>
      case GetMemoCmd(_) =>
      case UpdateMemoCmd(_, _) =>
    }

    /**
     * The server's side of `project.js`'s `updateTodoPriority`: the command names no
     * project, so the handler looks up the key "undefined". Without such a list it throws;
     * with one, a matching todo is replaced by the partial todo, losing its text, assignee,
     * due date and completion.
     */
    method ReceivePartialPriorityUpdate(todoId: string, priority: Priority) returns (outcome: Outcome)
      requires Valid()
      modifies this
      ensures Valid()
      ensures outcome == Threw <==> todoId != "" && "undefined" !in old(todos)
      ensures outcome == Threw ==> unchanged(this)
      ensures todoId != "" && "undefined" in old(todos) && TodoIndex(old(todos)["undefined"], todoId) != -1 ==>
        var i := TodoIndex(old(todos)["undefined"], todoId);
        && todos.Keys == old(todos).Keys
        && |todos["undefined"]| == |old(todos)["undefined"]|
        && todos["undefined"][i] == Todo(todoId, None, false, None, Some(priority), None)
        && (forall k :: k in old(todos) && k != "undefined" ==> todos[k] == old(todos)[k])
    {
      outcome := Handle(Forms.PartialPriorityUpdate(todoId, priority), "");
    }
  }
}
