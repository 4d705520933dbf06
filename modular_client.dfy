/**
 * The modular client (client/js/main.js, project.js and todo.js): its mirror of the
 * server's state, how `handleWebSocketMessage`, `handleProjectChange` and
 * `handleTodoChange` apply server events to it, and the edits the project page makes to a
 * todo of the mirror before sending it to the server. Unlike the single-file client, adds
 * of todos and assignees skip entries that are already there, and project updates merge
 * into the existing entry or append a new one.
 */
module ModularClient {
  import opened Wrappers
  import opened Records
  import Lists
  import Sorting
  import Text
  import Progress
  import TodoView

  /** The globals `projects`, `todos` and `projectAssignees`, and the messages sent on `socket`. */
  datatype Mirror = Mirror(
    projects: seq<Project>,
    todos: map<string, seq<Todo>>,
    assignees: map<string, seq<string>>,
    outbox: seq<Command>)

  /** The mirror at page load: `projects = []`, `todos = {}`, `projectAssignees = {}`, nothing sent. */
  const Initial := Mirror([], map[], map[], [])

  /**
   * What the page shows when a handler runs: the project whose details are open
   * (`getCurrentProjectId()`, `None` for null) and the filter and sort selects.
   */
  datatype Page = Page(current: Option<string>, filters: TodoView.Filters)

  /** The key `todos[getCurrentProjectId()]` reads: a null id reads the key "null". */
  function PageKey(page: Page): string {
    page.current.GetOr("null")
  }

  // ---------------------------------------------------------------------------------
  // projects (project.js)

  /**
   * The `projects` update of `updateProjectInUI(project)`: the first entry with the id
   * takes every field the incoming object carries and keeps the others; an unknown id
   * is appended.
   */
  function UpsertProject(ps: seq<Project>, p: Project): (r: seq<Project>)
    ensures ProjectIndex(ps, p.id) == -1 ==> r == ps + [p] && IdCount(r, p.id) == IdCount(ps, p.id) + 1
    ensures ProjectIndex(ps, p.id) != -1 ==>
      var i := ProjectIndex(ps, p.id);
      && |r| == |ps| && r[i].id == p.id
      && (p.name.Some? ==> r[i].name == p.name) && (p.name.None? ==> r[i].name == ps[i].name)
      && (p.progress.Some? ==> r[i].progress == p.progress)
      && (p.progress.None? ==> r[i].progress == ps[i].progress)
      && (forall k :: 0 <= k < |ps| && k != i ==> r[k] == ps[k])
  {
    var i := ProjectIndex(ps, p.id);
    if i == -1 then
      CountAppendMatching(ps, p, p.id);
      ps + [p]
    else
      ps[i := Merge(ps[i], p)]
  }

  /** Upserting the same project twice is upserting it once. */
  lemma UpsertProjectTwice(ps: seq<Project>, p: Project)
    ensures UpsertProject(UpsertProject(ps, p), p) == UpsertProject(ps, p)
  {
    var once := UpsertProject(ps, p);
    var i := ProjectIndex(ps, p.id);
    if i == -1 {
      assert once[|ps|] == p;
      assert ProjectIndex(once, p.id) == |ps|;
      assert once[|ps| := Merge(p, p)] == once;
    } else {
      assert once[i].id == p.id;
      assert ProjectIndex(once, p.id) == i;
      MergeTwice(ps[i], p);
      assert once[i := Merge(once[i], p)] == once;
    }
  }

  /** Upserting an entry that is already the first with its id changes nothing. */
  lemma UpsertProjectSelf(ps: seq<Project>, i: int)
    requires 0 <= i < |ps| && ProjectIndex(ps, ps[i].id) == i
    ensures UpsertProject(ps, ps[i]) == ps
  {
    assert ps[i := Merge(ps[i], ps[i])] == ps;
  }

  /**
   * `handleProjectChange(data)`: PROJECT_ADDED appends when the project has a truthy
   * name (without looking for its id), PROJECT_UPDATED upserts, PROJECT_DELETED removes
   * every entry with the id.
   */
  function ProjectChange(ps: seq<Project>, e: Event): (r: seq<Project>)
    ensures e.ProjectAdded? && Truthy(e.project.name) ==> r == ps + [e.project]
    ensures e.ProjectAdded? && !Truthy(e.project.name) ==> r == ps
    ensures e.ProjectUpdated? ==> r == UpsertProject(ps, e.project)
    ensures e.ProjectDeleted? ==> forall p :: p in r <==> p in ps && p.id != e.projectId
    ensures !(e.ProjectAdded? || e.ProjectUpdated? || e.ProjectDeleted?) ==> r == ps
  {
    match e
    case ProjectAdded(p) => if Truthy(p.name) then ps + [p] else ps
    case ProjectUpdated(p) => UpsertProject(ps, p)
    case ProjectDeleted(pid) => WithoutProject(ps, pid)
    case _ => ps
  }

  /** PROJECT_ADDED is not idempotent here either: delivered twice, its id is there twice more. */
  lemma ProjectAddedTwice(ps: seq<Project>, p: Project)
    requires Truthy(p.name)
    ensures IdCount(ProjectChange(ProjectChange(ps, ProjectAdded(p)), ProjectAdded(p)), p.id) == IdCount(ps, p.id) + 2
  {
    CountAppendMatching(ps, p, p.id);
    CountAppendMatching(ps + [p], p, p.id);
  }

  /** PROJECT_UPDATED is idempotent. */
  lemma ProjectUpdatedTwice(ps: seq<Project>, p: Project)
    ensures ProjectChange(ProjectChange(ps, ProjectUpdated(p)), ProjectUpdated(p)) == ProjectChange(ps, ProjectUpdated(p))
  {
    UpsertProjectTwice(ps, p);
  }

  // ---------------------------------------------------------------------------------
  // todos (todo.js)

  predicate IsTodoEvent(e: Event) {
    e.TodoAdded? || e.TodoUpdated? || e.TodoDeleted?
  }

  /**
   * The change `handleTodoChange(data)` makes to the project's list: TODO_ADDED appends
   * only when no todo has the id, TODO_UPDATED replaces the first todo with the id (if
   * any), TODO_DELETED removes every todo with the id.
   */
  function ListChange(list: seq<Todo>, e: Event): (r: seq<Todo>)
    requires IsTodoEvent(e)
    ensures e.TodoAdded? ==>
      && (TodoIndex(list, e.todo.id) == -1 ==> r == list + [e.todo])
      && (TodoIndex(list, e.todo.id) != -1 ==> r == list)
      && TodoIndex(r, e.todo.id) != -1
    ensures e.TodoUpdated? ==>
      var i := TodoIndex(list, e.todo.id);
      && |r| == |list|
      && (i == -1 ==> r == list)
      && (i != -1 ==> r[i] == e.todo && forall k :: 0 <= k < |list| && k != i ==> r[k] == list[k])
    ensures e.TodoDeleted? ==> forall t :: t in r <==> t in list && t.id != e.todoId
  {
    match e
    case TodoAdded(_, t) =>
      if TodoIndex(list, t.id) == -1 then
        assert (list + [t])[|list|].id == t.id;
        list + [t]
      else list
    case TodoUpdated(_, t) =>
      var i := TodoIndex(list, t.id);
      if i == -1 then list else list[i := t]
    case TodoDeleted(_, tid) =>
      WithoutTodo(list, tid)
  }

  /**
   * The map update of `handleTodoChange(data)`: the project's list is created when
   * missing and changed as ListChange says. No other list changes.
   */
  function TodoChange(todos: map<string, seq<Todo>>, e: Event): (r: map<string, seq<Todo>>)
    ensures !IsTodoEvent(e) ==> r == todos
    ensures IsTodoEvent(e) ==>
      && r.Keys == todos.Keys + {e.projectId}
      && (forall k :: k in todos && k != e.projectId ==> r[k] == todos[k])
      && r[e.projectId] == ListChange(ListOrEmpty(todos, e.projectId), e)
  {
    if IsTodoEvent(e) then todos[e.projectId := ListChange(ListOrEmpty(todos, e.projectId), e)]
    else todos
  }

  /** TODO_ADDED is idempotent: delivered twice, it has the effect of one delivery. */
  lemma TodoAddedTwice(todos: map<string, seq<Todo>>, pid: string, t: Todo)
    ensures TodoChange(TodoChange(todos, TodoAdded(pid, t)), TodoAdded(pid, t)) == TodoChange(todos, TodoAdded(pid, t))
  {
    var once := TodoChange(todos, TodoAdded(pid, t));
    var list1 := ListOrEmpty(once, pid);
    assert TodoIndex(list1, t.id) != -1;
    assert once[pid := list1] == once;
  }

  /** TODO_UPDATED is idempotent. */
  lemma TodoUpdatedTwice(todos: map<string, seq<Todo>>, pid: string, t: Todo)
    ensures TodoChange(TodoChange(todos, TodoUpdated(pid, t)), TodoUpdated(pid, t)) == TodoChange(todos, TodoUpdated(pid, t))
  {
    var once := TodoChange(todos, TodoUpdated(pid, t));
    var list := ListOrEmpty(todos, pid);
    var i := TodoIndex(list, t.id);
    var list1 := ListOrEmpty(once, pid);
    if i != -1 {
      assert list1 == list[i := t];
      assert TodoIndex(list1, t.id) == i;
      assert list1[i := t] == list1;
    } else {
      assert list1 == list;
    }
    assert once[pid := list1] == once;
  }

  /** TODO_DELETED is idempotent as well. */
  lemma TodoDeletedTwice(todos: map<string, seq<Todo>>, pid: string, tid: string)
    ensures TodoChange(TodoChange(todos, TodoDeleted(pid, tid)), TodoDeleted(pid, tid)) == TodoChange(todos, TodoDeleted(pid, tid))
  {
    WithoutTodoTwice(ListOrEmpty(todos, pid), tid);
  }

  /**
   * The side effect of `filterAndSortTodos(pid, term)` on the mirror: when neither the
   * term nor a filter select narrows the list, `filteredTodos` is the mirror's own array
   * (todo.js line 68), so the sort reorders `todos[pid]` itself, which then is exactly the
   * list shown. Otherwise the mirror is untouched.
   */
  function SortInPlace(todos: map<string, seq<Todo>>, pid: string, term: string, f: TodoView.Filters): (r: map<string, seq<Todo>>)
    ensures r.Keys == todos.Keys
    ensures forall k :: k in todos && k != pid ==> r[k] == todos[k]
    ensures pid in todos ==> multiset(r[pid]) == multiset(todos[pid])
    ensures TodoView.Narrowing(term, f) ==> r == todos
    ensures pid in todos && !TodoView.Narrowing(term, f) ==> TodoView.FilterAndSort(todos[pid], term, f) == Some(r[pid])
  {
    if pid in todos && !TodoView.Narrowing(term, f) && f.sortBy.Some? then
      todos[pid := Sorting.SortBy(todos[pid], TodoView.Before(f.sortBy.value))]
    else todos
  }

  /**
   * The `projects` and socket effect of `showProjectStatistics(pid)`: when the project
   * exists, its progress becomes the rounded completion rate of its todos and an
   * UPDATE_PROJECT carrying only the id and that progress is sent.
   */
  function Statistics(ps: seq<Project>, todos: map<string, seq<Todo>>, pid: string): (r: (seq<Project>, seq<Command>))
    ensures ProjectIndex(ps, pid) == -1 ==> r == (ps, [])
    ensures ProjectIndex(ps, pid) != -1 ==>
      var i := ProjectIndex(ps, pid);
      var rate := Progress.ProgressOf(ListOrEmpty(todos, pid));
      && |r.0| == |ps| && r.0[i] == ps[i].(progress := Some(rate))
      && (forall k :: 0 <= k < |ps| && k != i ==> r.0[k] == ps[k])
      && r.1 == [UpdateProjectCmd(Project(pid, None, Some(rate)))]
      && 0 <= rate <= 100
  {
    var i := ProjectIndex(ps, pid);
    if i == -1 then (ps, [])
    else
      var rate := Progress.ProgressOf(ListOrEmpty(todos, pid));
      (ps[i := ps[i].(progress := Some(rate))], [UpdateProjectCmd(Project(pid, None, Some(rate)))])
  }

  /**
   * The tail of `handleTodoChange` after the list update: on the project's own page the
   * list is re-filtered (possibly sorting the mirror) and the statistics recomputed; then
   * `updateProjectInUI(projects.find(...))` throws when no project has the id.
   */
  function AfterTodoChange(m: Mirror, pid: string, page: Page): (r: (Mirror, Outcome))
    ensures r.0.assignees == m.assignees
    ensures r.1 == Threw <==> ProjectIndex(m.projects, pid) == -1
    ensures page.current != Some(pid) ==> r.0 == m
    ensures r.0.todos.Keys == m.todos.Keys
    ensures forall k :: k in m.todos ==> multiset(r.0.todos[k]) == multiset(m.todos[k])
    ensures page.current == Some(pid) ==> r.0.todos == SortInPlace(m.todos, pid, "", page.filters)
    ensures page.current == Some(pid) && ProjectIndex(m.projects, pid) == -1 ==>
      r.0.projects == m.projects && r.0.outbox == m.outbox
    ensures page.current == Some(pid) && ProjectIndex(m.projects, pid) != -1 ==>
      var i := ProjectIndex(m.projects, pid);
      var rate := Progress.ProgressOf(ListOrEmpty(r.0.todos, pid));
      && |r.0.projects| == |m.projects|
      && r.0.projects[i] == m.projects[i].(progress := Some(rate))
      && (forall k :: 0 <= k < |m.projects| && k != i ==> r.0.projects[k] == m.projects[k])
      && r.0.outbox == m.outbox + [UpdateProjectCmd(Project(pid, None, Some(rate)))]
  {
    if page.current == Some(pid) then
      var todos := SortInPlace(m.todos, pid, "", page.filters);
      var stats := Statistics(m.projects, todos, pid);
      assert ProjectIndex(stats.0, pid) == ProjectIndex(m.projects, pid);
      (m.(todos := todos, projects := stats.0, outbox := m.outbox + stats.1),
       if ProjectIndex(m.projects, pid) == -1 then Threw else Completed)
    else
      (m, if ProjectIndex(m.projects, pid) == -1 then Threw else Completed)
  }

  // ---------------------------------------------------------------------------------
  // assignees (main.js)

  /** ASSIGNEE_ADDED: the list is created when missing and the name appended only when absent. */
  function AddAssignee(assignees: map<string, seq<string>>, pid: string, name: string): (r: map<string, seq<string>>)
    ensures r.Keys == assignees.Keys + {pid}
    ensures forall k :: k in assignees && k != pid ==> r[k] == assignees[k]
    ensures forall a :: a in r[pid] <==> a in ListOrEmpty(assignees, pid) || a == name
    ensures name in ListOrEmpty(assignees, pid) ==> r[pid] == ListOrEmpty(assignees, pid)
    ensures Lists.NoDuplicates(ListOrEmpty(assignees, pid)) ==> Lists.NoDuplicates(r[pid])
  {
    var list := ListOrEmpty(assignees, pid);
    assignees[pid := if name in list then list else list + [name]]
  }

  /** ASSIGNEE_ADDED is idempotent. */
  lemma AssigneeAddedTwice(assignees: map<string, seq<string>>, pid: string, name: string)
    ensures AddAssignee(AddAssignee(assignees, pid, name), pid, name) == AddAssignee(assignees, pid, name)
  {
    var once := AddAssignee(assignees, pid, name);
    assert name in once[pid];
    assert once[pid := once[pid]] == once;
  }

  /** ASSIGNEE_DELETED: every occurrence of the name leaves an existing list; no list, no change. */
  function DeleteAssignee(assignees: map<string, seq<string>>, pid: string, name: string): (r: map<string, seq<string>>)
    ensures pid !in assignees ==> r == assignees
    ensures pid in assignees ==>
      && r.Keys == assignees.Keys
      && (forall k :: k in assignees && k != pid ==> r[k] == assignees[k])
      && (forall a :: a in r[pid] <==> a in assignees[pid] && a != name)
  {
    if pid in assignees then assignees[pid := WithoutName(assignees[pid], name)] else assignees
  }

  // ---------------------------------------------------------------------------------
  // the dispatch (main.js)

  /**
   * `handleWebSocketMessage(data)`: the new mirror and whether the handler threw. A throw
   * happens only at the end of a TODO_* event, after the mirror has changed.
   */
  function Handle(m: Mirror, e: Event, page: Page): (r: (Mirror, Outcome))
    ensures e.FullStateUpdate? ==>
      r == (Mirror(e.projects, e.todos, e.projectAssignees.GetOr(map[]), m.outbox), Completed)
    ensures e.ProjectAdded? || e.ProjectUpdated? || e.ProjectDeleted? ==>
      r == (m.(projects := ProjectChange(m.projects, e)), Completed)
    ensures IsTodoEvent(e) ==>
      r == AfterTodoChange(m.(todos := TodoChange(m.todos, e)), e.projectId, page)
    ensures e.AssigneeAdded? ==>
      r == (m.(assignees := AddAssignee(m.assignees, e.projectId, e.assigneeName)), Completed)
    ensures e.AssigneeDeleted? ==>
      r == (m.(assignees := DeleteAssignee(m.assignees, e.projectId, e.assigneeName)), Completed)
    ensures e.MemoUpdate? || e.Unrecognised? ==> r == (m, Completed)
  {
    match e
    case FullStateUpdate(ps, ts, pa) =>
      (Mirror(ps, ts, pa.GetOr(map[]), m.outbox), Completed)
    case ProjectAdded(_) => (m.(projects := ProjectChange(m.projects, e)), Completed)
    case ProjectUpdated(_) => (m.(projects := ProjectChange(m.projects, e)), Completed)
    case ProjectDeleted(_) => (m.(projects := ProjectChange(m.projects, e)), Completed)
    case TodoAdded(pid, _) => AfterTodoChange(m.(todos := TodoChange(m.todos, e)), pid, page)
    case TodoUpdated(pid, _) => AfterTodoChange(m.(todos := TodoChange(m.todos, e)), pid, page)
    case TodoDeleted(pid, _) => AfterTodoChange(m.(todos := TodoChange(m.todos, e)), pid, page)
    case AssigneeAdded(pid, name) => (m.(assignees := AddAssignee(m.assignees, pid, name)), Completed)
    case AssigneeDeleted(pid, name) => (m.(assignees := DeleteAssignee(m.assignees, pid, name)), Completed)
    case MemoUpdate(_, _) => (m, Completed)
    case Unrecognised(_) => (m, Completed)
  }

  /** FULL_STATE_UPDATE overwrites the three collections: what was there before does not matter. */
  lemma FullStateForgets(m1: Mirror, m2: Mirror, e: Event, page: Page)
    requires e.FullStateUpdate? && m1.outbox == m2.outbox
    ensures Handle(m1, e, page) == Handle(m2, e, page)
  {
  }

  // ---------------------------------------------------------------------------------
  // the project page's own edits (todo.js, project.js)

  /**
   * The one field `updateTodoStatus`, `updateTodoPriority`, `updateTodoDueDate`,
   * `editTodo` or `updateTodoAssignee` sets.
   */
  datatype Change =
    | SetCompleted(completed: bool)
    | SetPriority(priority: Priority)
    | SetDueDate(dueDate: Option<int>)
    | SetText(text: string)
    | SetAssignee(assignee: string)

  /** The todo after the change: exactly one field differs at most, and the id stays. */
  function Changed(t: Todo, c: Change): (r: Todo)
    ensures r.id == t.id
    ensures c.SetCompleted? ==> r.completed == c.completed && r == t.(completed := r.completed)
    ensures c.SetPriority? ==> r.priority == Some(c.priority) && r == t.(priority := r.priority)
    ensures c.SetDueDate? ==> r.dueDate == c.dueDate && r == t.(dueDate := r.dueDate)
    ensures c.SetText? ==> r.text == Some(c.text) && r == t.(text := r.text)
    ensures c.SetAssignee? ==> r.assignee == Some(c.assignee) && r == t.(assignee := r.assignee)
  {
    match c
    case SetCompleted(b) => t.(completed := b)
    case SetPriority(p) => t.(priority := Some(p))
    case SetDueDate(d) => t.(dueDate := d)
    case SetText(s) => t.(text := Some(s))
    case SetAssignee(a) => t.(assignee := Some(a))
  }

  /**
   * `updateTodoStatus`, `updateTodoPriority` and `updateTodoDueDate`: `todos[pid].find`
   * throws when the page's key has no list; otherwise the first todo with the id is
   * changed in the mirror and sent whole in UPDATE_TODO under the page's key. A priority
   * change then re-runs `filterAndSortTodos`, which may sort the mirror.
   */
  function ApplyChange(m: Mirror, page: Page, todoId: string, c: Change): (r: (Mirror, Outcome))
    ensures PageKey(page) !in m.todos ==> r == (m, Threw)
    ensures PageKey(page) in m.todos ==> r.1 == Completed
    ensures PageKey(page) in m.todos && TodoIndex(m.todos[PageKey(page)], todoId) == -1 ==> r.0 == m
    ensures PageKey(page) in m.todos && TodoIndex(m.todos[PageKey(page)], todoId) != -1 ==>
      var key := PageKey(page);
      var list := m.todos[key];
      var i := TodoIndex(list, todoId);
      var t := Changed(list[i], c);
      && r.0.projects == m.projects && r.0.assignees == m.assignees
      && r.0.outbox == m.outbox + [UpdateTodoCmd(Some(key), t)]
      && (!c.SetPriority? ==> r.0.todos == m.todos[key := list[i := t]])
      && (c.SetPriority? ==> r.0.todos == SortInPlace(m.todos[key := list[i := t]], key, "", page.filters))
  {
    var key := PageKey(page);
    if key !in m.todos then (m, Threw)
    else
      var list := m.todos[key];
      var i := TodoIndex(list, todoId);
      if i == -1 then (m, Completed)
      else
        var t := Changed(list[i], c);
        var todos := m.todos[key := list[i := t]];
        var todos' := if c.SetPriority? then SortInPlace(todos, key, "", page.filters) else todos;
        (m.(todos := todos', outbox := m.outbox + [UpdateTodoCmd(Some(key), t)]), Completed)
  }

  /**
   * The todo the server receives is the mirror's own todo after the change: for a status,
   * date or text change it sits at the same index of the mirror list.
   */
  lemma SentTodoIsMirrored(m: Mirror, page: Page, todoId: string, c: Change)
    requires !c.SetPriority?
    requires PageKey(page) in m.todos && TodoIndex(m.todos[PageKey(page)], todoId) != -1
    ensures
      var r := ApplyChange(m, page, todoId, c).0;
      var i := TodoIndex(m.todos[PageKey(page)], todoId);
      && PageKey(page) in r.todos && i < |r.todos[PageKey(page)]|
      && r.outbox[|r.outbox| - 1] == UpdateTodoCmd(Some(PageKey(page)), r.todos[PageKey(page)][i])
      && r.todos[PageKey(page)][i].id == todoId
  {
  }

  /**
   * `updateTodoAssignee(todoId, newAssignee)` of todo.js: unlike the other edits it never
   * throws. Without a current project id, or when the project's list (read as `[]` when
   * missing) has no todo with the id, nothing changes; otherwise the todo takes the
   * assignee in the mirror and is sent whole, as `ApplyChange` does.
   */
  function ApplyAssignee(m: Mirror, page: Page, todoId: string, name: string): (r: Mirror)
    ensures !Truthy(page.current) ==> r == m
    ensures Truthy(page.current) && TodoIndex(ListOrEmpty(m.todos, page.current.value), todoId) == -1 ==> r == m
    ensures Truthy(page.current) && TodoIndex(ListOrEmpty(m.todos, page.current.value), todoId) != -1 ==>
      var key := page.current.value;
      var i := TodoIndex(m.todos[key], todoId);
      && r == ApplyChange(m, page, todoId, SetAssignee(name)).0
      && ApplyChange(m, page, todoId, SetAssignee(name)).1 == Completed
      && r.todos[key][i] == m.todos[key][i].(assignee := Some(name))
      && r.outbox == m.outbox + [UpdateTodoCmd(Some(key), r.todos[key][i])]
  {
    if !Truthy(page.current) then m
    else
      var key := page.current.value;
      if TodoIndex(ListOrEmpty(m.todos, key), todoId) == -1 then m
      else ApplyChange(m, page, todoId, SetAssignee(name)).0
  }

  /**
   * `editTodo(todoId)` with the prompt's answer (`None` when cancelled): the text changes,
   * to the trimmed answer, only when the answer is not blank.
   */
  function ApplyEditText(m: Mirror, page: Page, todoId: string, answer: Option<string>): (r: (Mirror, Outcome))
    ensures PageKey(page) !in m.todos ==> r == (m, Threw)
    ensures answer.None? || Text.Trim(answer.value) == "" ==> r.0 == m
    ensures PageKey(page) in m.todos && answer.Some? && Text.Trim(answer.value) != "" ==>
      r == ApplyChange(m, page, todoId, SetText(Text.Trim(answer.value)))
  {
    if PageKey(page) !in m.todos then (m, Threw)
    else if answer.Some? && Text.Trim(answer.value) != "" then ApplyChange(m, page, todoId, SetText(Text.Trim(answer.value)))
    else (m, Completed)
  }

  /** An edited text has no white space at either end and is not empty. */
  lemma EditedTextTrimmed(m: Mirror, page: Page, todoId: string, answer: Option<string>)
    requires PageKey(page) in m.todos && TodoIndex(m.todos[PageKey(page)], todoId) != -1
    requires answer.Some? && Text.Trim(answer.value) != ""
    ensures
      var r := ApplyEditText(m, page, todoId, answer).0;
      var s := r.todos[PageKey(page)][TodoIndex(m.todos[PageKey(page)], todoId)].text;
      && s.Some? && s.value != [] && !Text.IsSpace(s.value[0]) && !Text.IsSpace(s.value[|s.value| - 1])
      && Text.Trim(s.value) == s.value
  {
    Text.TrimIdempotent(answer.value);
  }

  /**
   * `renameProject(pid)` with the current name shown and the prompt's answer: when the
   * answer is not blank and differs from the current name, UPDATE_PROJECT with the
   * trimmed name is sent and merged into the mirror; otherwise nothing happens.
   */
  function ApplyRename(m: Mirror, pid: string, currentName: string, answer: Option<string>): (r: Mirror)
    ensures !(Truthy(answer) && Text.Trim(answer.value) != "" && answer.value != currentName) ==> r == m
    ensures Truthy(answer) && Text.Trim(answer.value) != "" && answer.value != currentName ==>
      var patch := Project(pid, Some(Text.Trim(answer.value)), None);
      && r.outbox == m.outbox + [UpdateProjectCmd(patch)]
      && r.projects == UpsertProject(m.projects, patch)
      && r.todos == m.todos && r.assignees == m.assignees
  {
    if Truthy(answer) && Text.Trim(answer.value) != "" && answer.value != currentName then
      var patch := Project(pid, Some(Text.Trim(answer.value)), None);
      m.(outbox := m.outbox + [UpdateProjectCmd(patch)], projects := UpsertProject(m.projects, patch))
    else m
  }

  /** After a rename the first project with the id carries the trimmed name and keeps its progress. */
  lemma RenameKeepsProgress(m: Mirror, pid: string, currentName: string, answer: Option<string>)
    requires Truthy(answer) && Text.Trim(answer.value) != "" && answer.value != currentName
    requires ProjectIndex(m.projects, pid) != -1
    ensures
      var r := ApplyRename(m, pid, currentName, answer);
      var i := ProjectIndex(m.projects, pid);
      && |r.projects| == |m.projects|
      && r.projects[i].name == Some(Text.Trim(answer.value))
      && r.projects[i].progress == m.projects[i].progress
  {
  }

  // ---------------------------------------------------------------------------------
  // the mirror as the page holds it

  /** The page's globals; the handlers change them in place. */
  class Client {
    var projects: seq<Project>
    var todos: map<string, seq<Todo>>
    var assignees: map<string, seq<string>>
    var outbox: seq<Command>

    function State(): Mirror
      reads this
    {
      Mirror(projects, todos, assignees, outbox)
    }

    constructor()
      ensures State() == Initial
    {
      projects, todos, assignees, outbox := [], map[], map[], [];
    }

    /** `updateProjectInUI(project)`: merge into the entry with the id, or append. */
    method UpdateProjectInUI(p: Project)
      modifies this
      ensures State() == old(State()).(projects := UpsertProject(old(projects), p))
    {
      var i := ProjectIndex(projects, p.id);
      if i != -1 {
        projects := projects[i := Merge(projects[i], p)];
      } else {
        projects := projects + [p];
      }
    }

    /** `handleProjectChange(data)`. */
    method HandleProjectChange(e: Event)
      modifies this
      ensures State() == old(State()).(projects := ProjectChange(old(projects), e))
    {
      match e
      case ProjectAdded(p) =>
        if p.name.Some? && p.name.value != "" {
          projects := projects + [p];
        }
      case ProjectUpdated(p) =>
        UpdateProjectInUI(p);
      case ProjectDeleted(pid) =>
        projects := WithoutProject(projects, pid);
      case _ =>
    }

    /**
     * `filterAndSortTodos(pid, term)`: returns the list shown (`None` when it throws) and
     * sorts the mirror's own list when nothing narrows it.
     */
    method FilterAndSortTodos(pid: string, term: string, f: TodoView.Filters) returns (shown: Option<seq<Todo>>)
      modifies this
      ensures shown == TodoView.FilterAndSort(ListOrEmpty(old(todos), pid), term, f)
      ensures State() == old(State()).(todos := SortInPlace(old(todos), pid, term, f))
    {
      var list := ListOrEmpty(todos, pid);
      shown := TodoView.FilterAndSort(list, term, f);
      if pid in todos && !TodoView.Narrowing(term, f) && f.sortBy.Some? {
        todos := todos[pid := shown.value];
      }
    }

    /** `showProjectStatistics(pid)`: store and send the project's progress. */
    method ShowProjectStatistics(pid: string)
      modifies this
      ensures State() == old(State()).(
        projects := Statistics(old(projects), old(todos), pid).0,
        outbox := old(outbox) + Statistics(old(projects), old(todos), pid).1)
    {
      var i := ProjectIndex(projects, pid);
      if i == -1 {
        return;
      }
      var rate := Progress.ProgressOf(ListOrEmpty(todos, pid));
      var before := projects;
      projects := projects[i := projects[i].(progress := Some(rate))];
      assert projects[i].id == pid;
      assert forall k :: 0 <= k < i ==> projects[k] == before[k];
      assert ProjectIndex(projects, pid) == i;
      UpsertProjectSelf(projects, i);
      UpdateProjectInUI(projects[i]);
      outbox := outbox + [UpdateProjectCmd(Project(pid, None, Some(rate)))];
    }

    /** The list update at the head of `handleTodoChange(data)`. */
    method UpdateTodoList(e: Event)
      requires IsTodoEvent(e)
      modifies this
      ensures State() == old(State()).(todos := TodoChange(old(todos), e))
    {
      var pid := e.projectId;
      // the project's list, created empty when missing
      var list := if pid in todos then todos[pid] else [];
      match e {
        case TodoAdded(_, t) =>
          if TodoIndex(list, t.id) == -1 {
            list := list + [t];
          }
        case TodoUpdated(_, t) =>
          var i := TodoIndex(list, t.id);
          if i != -1 {
            list := list[i := t];
          }
        case TodoDeleted(_, tid) =>
          list := WithoutTodo(list, tid);
      }
      todos := todos[pid := list];
    }

    /** `handleTodoChange(data)`: the list update, then the page refresh. */
    method HandleTodoChange(e: Event, page: Page) returns (outcome: Outcome)
      requires IsTodoEvent(e)
      modifies this
      ensures (State(), outcome) == AfterTodoChange(old(State()).(todos := TodoChange(old(todos), e)), e.projectId, page)
    {
      UpdateTodoList(e);
      var pid := e.projectId;
      if page.current == Some(pid) {
        var _ := FilterAndSortTodos(pid, "", page.filters);
        ShowProjectStatistics(pid);
      }
      outcome := if ProjectIndex(projects, pid) == -1 then Threw else Completed;
    }

    /** `handleWebSocketMessage(data)`. */
    method HandleWebSocketMessage(e: Event, page: Page) returns (outcome: Outcome)
      modifies this
      ensures (State(), outcome) == Handle(old(State()), e, page)
    {
      outcome := Completed;
      match e
      case FullStateUpdate(ps, ts, pa) =>
        projects := ps;
        todos := ts;
        assignees := if pa.Some? then pa.value else map[];
      case ProjectAdded(_) =>
        HandleProjectChange(e);
      case ProjectUpdated(_) =>
        HandleProjectChange(e);
      case ProjectDeleted(_) =>
        HandleProjectChange(e);
      case TodoAdded(_, _) =>
        outcome := HandleTodoChange(e, page);
      case TodoUpdated(_, _) =>
        outcome := HandleTodoChange(e, page);
      case TodoDeleted(_, _) =>
        outcome := HandleTodoChange(e, page);
      case AssigneeAdded(pid, name) =>
        if pid !in assignees {
          assignees := assignees[pid := []];
        }
        if name !in assignees[pid] {
          assignees := assignees[pid := assignees[pid] + [name]];
        }
        assert assignees == AddAssignee(old(assignees), pid, name);
      case AssigneeDeleted(pid, name) =>
        if pid in assignees {
          assignees := assignees[pid := WithoutName(assignees[pid], name)];
        }
        assert assignees == DeleteAssignee(old(assignees), pid, name);
      case MemoUpdate(_, _) =>
      case Unrecognised(_) =>
    }

    /**
     * The shared body of the one-field edits `UpdateTodoStatus`, `UpdateTodoPriority`,
     * `UpdateTodoDueDate`, `EditTodo` and `UpdateTodoAssignee`.
     */
    method ChangeTodo(page: Page, todoId: string, c: Change) returns (outcome: Outcome)
      modifies this
      ensures (State(), outcome) == ApplyChange(old(State()), page, todoId, c)
    {
      var key := PageKey(page);
      if key !in todos {
        return Threw;
      }
      outcome := Completed;
      var i := TodoIndex(todos[key], todoId);
      if i != -1 {
        var t := Changed(todos[key][i], c);
        todos := todos[key := todos[key][i := t]];
        outbox := outbox + [UpdateTodoCmd(Some(key), t)];
        if c.SetPriority? {
          var _ := FilterAndSortTodos(key, "", page.filters);
        }
      }
    }

    /** `updateTodoStatus(todoId, completed)`. */
    method UpdateTodoStatus(page: Page, todoId: string, completed: bool) returns (outcome: Outcome)
      modifies this
      ensures (State(), outcome) == ApplyChange(old(State()), page, todoId, SetCompleted(completed))
    {
      outcome := ChangeTodo(page, todoId, SetCompleted(completed));
    }

    /** `updateTodoPriority(todoId, priority)` of todo.js. */
    method UpdateTodoPriority(page: Page, todoId: string, priority: Priority) returns (outcome: Outcome)
      modifies this
      ensures (State(), outcome) == ApplyChange(old(State()), page, todoId, SetPriority(priority))
    {
      outcome := ChangeTodo(page, todoId, SetPriority(priority));
    }

    /** `updateTodoDueDate(todoId, dueDate)`. */
    method UpdateTodoDueDate(page: Page, todoId: string, dueDate: Option<int>) returns (outcome: Outcome)
      modifies this
      ensures (State(), outcome) == ApplyChange(old(State()), page, todoId, SetDueDate(dueDate))
    {
      outcome := ChangeTodo(page, todoId, SetDueDate(dueDate));
    }

    /** `updateTodoAssignee(todoId, newAssignee)` of todo.js. */
    method UpdateTodoAssignee(page: Page, todoId: string, name: string)
      modifies this
      ensures State() == ApplyAssignee(old(State()), page, todoId, name)
    {
      if !Truthy(page.current) {
        return;
      }
      var key := page.current.value;
      var list := if key in todos then todos[key] else [];
      if TodoIndex(list, todoId) != -1 {
        var _ := ChangeTodo(page, todoId, SetAssignee(name));
      }
    }

    /** `editTodo(todoId)` with the prompt's answer. */
    method EditTodo(page: Page, todoId: string, answer: Option<string>) returns (outcome: Outcome)
      modifies this
      ensures (State(), outcome) == ApplyEditText(old(State()), page, todoId, answer)
    {
      if PageKey(page) !in todos {
        return Threw;
      }
      outcome := Completed;
      if answer.Some? && Text.Trim(answer.value) != "" {
        outcome := ChangeTodo(page, todoId, SetText(Text.Trim(answer.value)));
      }
    }

    /** `renameProject(pid)` with the name shown and the prompt's answer. */
    method RenameProject(pid: string, currentName: string, answer: Option<string>)
      modifies this
      ensures State() == ApplyRename(old(State()), pid, currentName, answer)
    {
      if answer.Some? && answer.value != "" && Text.Trim(answer.value) != "" && answer.value != currentName {
        var patch := Project(pid, Some(Text.Trim(answer.value)), None);
        outbox := outbox + [UpdateProjectCmd(patch)];
        UpdateProjectInUI(patch);
      }
    }
  }
}
