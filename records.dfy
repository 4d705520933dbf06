/**
 * The JSON records that the server and the clients exchange and store: projects, todos,
 * the commands clients send and the events the server broadcasts. A field that a message
 * may leave out is an `Option`; `None` stands for an absent (undefined) field.
 */
module Records {
  import opened Wrappers
  import Lists

  /** A todo's priority; the selects offer exactly "low", "medium" and "high". */
  datatype Priority = Low | Medium | High

  /** The string value the selects and filters use for a priority. */
  function PriorityName(p: Priority): string {
    match p
    case Low => "low"
    case Medium => "medium"
    case High => "high"
  }

  /**
   * `priorityOrder[p]` of `{ high: 3, medium: 2, low: 1 }`. A todo without a priority
   * has no rank (undefined, so the comparators compute NaN and treat the pair as equal).
   */
  function Rank(p: Priority): (r: int)
    ensures 1 <= r <= 3
    ensures r == 3 <==> p == High
    ensures r == 1 <==> p == Low
  {
    match p
    case High => 3
    case Medium => 2
    case Low => 1
  }

  /**
   * A todo object. `completed` is false also when the field is absent: every reader tests
   * it for truthiness only. `dueDate` is a day number; `None` is a missing or empty date
   * (JavaScript's `new Date('')`, an invalid date).
   */
  datatype Todo = Todo(
    id: string,
    text: Option<string>,
    completed: bool,
    assignee: Option<string>,
    priority: Option<Priority>,
    dueDate: Option<int>)

  /** A project object; `name` and `progress` may be absent in partial updates. */
  datatype Project = Project(id: string, name: Option<string>, progress: Option<int>)

  /** The todo that project.js's `addTodo` nests in its ADD_TODO message (it has no id). */
  datatype Draft = Draft(text: string, assignee: string, priority: Priority, dueDate: Option<int>, completed: bool)

  /** JavaScript truthiness of an optional string: present and not empty. */
  predicate Truthy(s: Option<string>) {
    s.Some? && s.value != ""
  }

  /** The property key a possibly-undefined id reads: `obj[undefined]` is `obj["undefined"]`. */
  function JsKey(id: Option<string>): string {
    id.GetOr("undefined")
  }

  /** `{...base, ...patch}`: every field present in `patch` overrides the one in `base`. */
  function Merge(base: Project, patch: Project): Project {
    Project(
      patch.id,
      if patch.name.Some? then patch.name else base.name,
      if patch.progress.Some? then patch.progress else base.progress)
  }

  /** A merge keeps every field the patch leaves out and takes every field it carries. */
  lemma MergeFields(base: Project, patch: Project)
    ensures Merge(base, patch).id == patch.id
    ensures patch.name.Some? ==> Merge(base, patch).name == patch.name
    ensures patch.name.None? ==> Merge(base, patch).name == base.name
    ensures patch.progress.Some? ==> Merge(base, patch).progress == patch.progress
    ensures patch.progress.None? ==> Merge(base, patch).progress == base.progress
  {
  }

  /** Merging the same patch twice is merging it once. */
  lemma MergeTwice(base: Project, patch: Project)
    ensures Merge(Merge(base, patch), patch) == Merge(base, patch)
  {
  }

  /** Whether a handler ran to its end or stopped at a thrown TypeError. */
  datatype Outcome = Completed | Threw

  /** Commands a client sends to the server (the `type` field selects the constructor). */
  datatype Command =
    | AddProjectCmd(name: string)
    | UpdateProjectCmd(project: Project)
    | DeleteProjectCmd(projectId: string)
      // ADD_TODO carries the fields flat (client.js, todo.js) or nested in `todo` (project.js)
    | AddTodoCmd(projectId: string, text: Option<string>, assignee: Option<string>,
                 priority: Option<Priority>, dueDate: Option<int>, draft: Option<Draft>)
    | UpdateTodoCmd(targetProject: Option<string>, todo: Todo)
    | DeleteTodoCmd(projectId: string, todoId: string)
    | AddAssigneeCmd(projectId: string, assigneeName: string)
    | DeleteAssigneeCmd(projectId: string, assigneeName: string)
    | RequestFullStateCmd
    | GetMemoCmd(projectId: string)
    | UpdateMemoCmd(projectId: string, content: string)

  /** Events the server sends to clients. */
  datatype Event =
    | FullStateUpdate(projects: seq<Project>, todos: map<string, seq<Todo>>,
                      projectAssignees: Option<map<string, seq<string>>>)
    | ProjectAdded(project: Project)
    | ProjectUpdated(project: Project)
    | ProjectDeleted(projectId: string)
    | TodoAdded(projectId: string, todo: Todo)
    | TodoUpdated(projectId: string, todo: Todo)
    | TodoDeleted(projectId: string, todoId: string)
    | AssigneeAdded(projectId: string, assigneeName: string)
    | AssigneeDeleted(projectId: string, assigneeName: string)
    | MemoUpdate(projectId: string, content: string)
    | Unrecognised(kind: string)

  /**
   * The list stored under `pid`, or the empty list when there is none: both
   * `m[pid] || []` and the list after `if (!m[pid]) m[pid] = []`.
   */
  function ListOrEmpty<T>(m: map<string, seq<T>>, pid: string): seq<T> {
    if pid in m then m[pid] else []
  }

  /** `projects.findIndex(p => p.id === id)`. */
  function ProjectIndex(ps: seq<Project>, id: string): (i: int)
    ensures -1 <= i < |ps|
    ensures i == -1 <==> forall k :: 0 <= k < |ps| ==> ps[k].id != id
    ensures 0 <= i ==> ps[i].id == id && forall k :: 0 <= k < i ==> ps[k].id != id
  {
    Lists.IndexWhere(ps, (p: Project) => p.id == id)
  }

  /** `list.findIndex(t => t.id === id)`; also the todo `list.find(...)` returns. */
  function TodoIndex(ts: seq<Todo>, id: string): (i: int)
    ensures -1 <= i < |ts|
    ensures i == -1 <==> forall k :: 0 <= k < |ts| ==> ts[k].id != id
    ensures 0 <= i ==> ts[i].id == id && forall k :: 0 <= k < i ==> ts[k].id != id
  {
    Lists.IndexWhere(ts, (t: Todo) => t.id == id)
  }

  /** How many entries of `ps` carry the id. */
  function IdCount(ps: seq<Project>, id: string): nat {
    Lists.Count(ps, (p: Project) => p.id == id)
  }

  /** Appending a project with the id adds one to the count. */
  lemma CountAppendMatching(ps: seq<Project>, p: Project, id: string)
    requires p.id == id
    ensures IdCount(ps + [p], id) == IdCount(ps, id) + 1
  {
    Lists.KeepAppend(ps, [p], (q: Project) => q.id == id);
  }

  /** `projects.filter(p => p.id !== id)`. */
  function WithoutProject(ps: seq<Project>, id: string): (r: seq<Project>)
    ensures forall p :: p in r <==> p in ps && p.id != id
    ensures |r| <= |ps|
  {
    Lists.Keep(ps, (p: Project) => p.id != id)
  }

  /** `list.filter(t => t.id !== id)`. */
  function WithoutTodo(ts: seq<Todo>, id: string): (r: seq<Todo>)
    ensures forall t :: t in r <==> t in ts && t.id != id
    ensures |r| <= |ts|
  {
    Lists.Keep(ts, (t: Todo) => t.id != id)
  }

  /** `names.filter(a => a !== name)`. */
  function WithoutName(names: seq<string>, name: string): (r: seq<string>)
    ensures forall a :: a in r <==> a in names && a != name
    ensures |r| <= |names|
  {
    Lists.Keep(names, (a: string) => a != name)
  }

  /** Filtering by id twice removes nothing more. */
  lemma WithoutTodoTwice(ts: seq<Todo>, id: string)
    ensures WithoutTodo(WithoutTodo(ts, id), id) == WithoutTodo(ts, id)
  {
    Lists.KeepTwice(ts, (t: Todo) => t.id != id);
  }

  /** Removing a name keeps a duplicate-free assignee list duplicate-free. */
  lemma WithoutNameNoDuplicates(names: seq<string>, name: string)
    requires Lists.NoDuplicates(names)
    ensures Lists.NoDuplicates(WithoutName(names, name))
  {
    Lists.KeepNoDuplicates(names, (a: string) => a != name);
  }
}
