/**
 * The single-file client (client/client.js): its local mirror of the server's state, how
 * `handleWebSocketMessage` applies each server event to that mirror, and the views it
 * derives from the mirror (urgent todos, per-assignee progress, assignee options).
 */
module LegacyClient {
  import opened Wrappers
  import opened Records
  import Lists
  import Sorting
  import Progress
  import opened Selects

  /** The globals `projects`, `todos` and `projectAssignees`. */
  datatype Mirror = Mirror(projects: seq<Project>, todos: map<string, seq<Todo>>, assignees: map<string, seq<string>>)

  /** The mirror at page load: `projects = []`, `todos = {}`, `projectAssignees = {}`. */
  const Initial := Mirror([], map[], map[])

  /**
   * The mirror after `handleWebSocketMessage(e)`, or `None` when the handler throws before
   * changing anything: ASSIGNEE_DELETED reads `projectAssignees[pid].filter`, which throws
   * when the project has no list. Adds append without looking for duplicates; updates
   * replace the entry with the same id, if there is one.
   */
  function Apply(m: Mirror, e: Event): (r: Option<Mirror>)
    ensures r.None? <==> e.AssigneeDeleted? && e.projectId !in m.assignees
    ensures e.FullStateUpdate? ==>
      && r.Some? && r.value.projects == e.projects && r.value.todos == e.todos
      && r.value.assignees == e.projectAssignees.GetOr(map[])
    ensures e.ProjectAdded? ==>
      r == Some(m.(projects := m.projects + [e.project]))
    ensures e.ProjectUpdated? ==>
      var i := ProjectIndex(m.projects, e.project.id);
      && r.Some? && r.value.todos == m.todos && r.value.assignees == m.assignees
      && (i == -1 ==> r.value.projects == m.projects)
      && (i != -1 ==> r.value.projects == m.projects[i := e.project])
    ensures e.ProjectDeleted? ==>
      && r.Some? && r.value.todos == m.todos && r.value.assignees == m.assignees
      && (forall p :: p in r.value.projects <==> p in m.projects && p.id != e.projectId)
    ensures e.TodoAdded? ==>
      r == Some(m.(todos := m.todos[e.projectId := ListOrEmpty(m.todos, e.projectId) + [e.todo]]))
    ensures e.TodoUpdated? ==>
      var list := ListOrEmpty(m.todos, e.projectId);
      var i := TodoIndex(list, e.todo.id);
      && r.Some? && r.value.projects == m.projects && r.value.assignees == m.assignees
      && r.value.todos == m.todos[e.projectId := if i == -1 then list else list[i := e.todo]]
    ensures e.TodoDeleted? ==>
      && r.Some? && r.value.projects == m.projects && r.value.assignees == m.assignees
      && e.projectId in r.value.todos
      && r.value.todos == m.todos[e.projectId := r.value.todos[e.projectId]]
      && (forall t :: t in r.value.todos[e.projectId] <==>
            t in ListOrEmpty(m.todos, e.projectId) && t.id != e.todoId)
    ensures e.AssigneeAdded? ==>
      r == Some(m.(assignees := m.assignees[e.projectId := ListOrEmpty(m.assignees, e.projectId) + [e.assigneeName]]))
    ensures e.AssigneeDeleted? && r.Some? ==>
      && r.value.projects == m.projects && r.value.todos == m.todos
      && e.projectId in r.value.assignees
      && r.value.assignees == m.assignees[e.projectId := r.value.assignees[e.projectId]]
      && (forall a :: a in r.value.assignees[e.projectId] <==> a in m.assignees[e.projectId] && a != e.assigneeName)
    ensures e.MemoUpdate? || e.Unrecognised? ==> r == Some(m)
  {
    match e
    case FullStateUpdate(ps, ts, pa) =>
      Some(Mirror(ps, ts, pa.GetOr(map[])))
    case ProjectAdded(p) =>
      Some(m.(projects := m.projects + [p]))
    case ProjectUpdated(p) =>
      var i := ProjectIndex(m.projects, p.id);
      Some(if i == -1 then m else m.(projects := m.projects[i := p]))
    case ProjectDeleted(pid) =>
      Some(m.(projects := WithoutProject(m.projects, pid)))
    case TodoAdded(pid, t) =>
      Some(m.(todos := m.todos[pid := ListOrEmpty(m.todos, pid) + [t]]))
    case TodoUpdated(pid, t) =>
      var list := ListOrEmpty(m.todos, pid);
      var i := TodoIndex(list, t.id);
      Some(m.(todos := m.todos[pid := if i == -1 then list else list[i := t]]))
    case TodoDeleted(pid, tid) =>
      Some(m.(todos := m.todos[pid := WithoutTodo(ListOrEmpty(m.todos, pid), tid)]))
    case AssigneeAdded(pid, name) =>
      Some(m.(assignees := m.assignees[pid := ListOrEmpty(m.assignees, pid) + [name]]))
    case AssigneeDeleted(pid, name) =>
      if pid in m.assignees then Some(m.(assignees := m.assignees[pid := WithoutName(m.assignees[pid], name)]))
      else None
    case MemoUpdate(_, _) => Some(m)
    case Unrecognised(_) => Some(m)
  }

  /** FULL_STATE_UPDATE overwrites the mirror: the result does not depend on what was there. */
  lemma FullStateForgets(m1: Mirror, m2: Mirror, e: Event)
    requires e.FullStateUpdate?
    ensures Apply(m1, e) == Apply(m2, e)
  {
  }

  /**
   * PROJECT_ADDED is not idempotent: delivered twice, it leaves two more entries with the
   * project's id than there were.
   */
  lemma ProjectAddedTwice(m: Mirror, p: Project)
    ensures Apply(m, ProjectAdded(p)).Some?
    ensures Apply(Apply(m, ProjectAdded(p)).value, ProjectAdded(p)).Some?
    ensures
      var twice := Apply(Apply(m, ProjectAdded(p)).value, ProjectAdded(p)).value;
      IdCount(twice.projects, p.id) == IdCount(m.projects, p.id) + 2
  {
    var once := Apply(m, ProjectAdded(p)).value;
    var twice := Apply(once, ProjectAdded(p)).value;
    assert twice.projects == m.projects + [p, p];
    CountAppendMatching(m.projects, p, p.id);
    CountAppendMatching(m.projects + [p], p, p.id);
    assert m.projects + [p] + [p] == m.projects + [p, p];
  }

  /** TODO_ADDED is not idempotent either: delivered twice, the todo is in the list twice. */
  lemma TodoAddedTwice(m: Mirror, pid: string, t: Todo)
    ensures Apply(m, TodoAdded(pid, t)).Some?
    ensures Apply(Apply(m, TodoAdded(pid, t)).value, TodoAdded(pid, t)).Some?
    ensures Apply(Apply(m, TodoAdded(pid, t)).value, TodoAdded(pid, t)).value.todos[pid]
            == ListOrEmpty(m.todos, pid) + [t, t]
  {
    var once := Apply(m, TodoAdded(pid, t)).value;
    assert ListOrEmpty(once.todos, pid) == ListOrEmpty(m.todos, pid) + [t];
    assert ListOrEmpty(m.todos, pid) + [t] + [t] == ListOrEmpty(m.todos, pid) + [t, t];
  }

  /** ASSIGNEE_ADDED appends without deduplication: delivered twice, the name is there twice. */
  lemma AssigneeAddedTwice(m: Mirror, pid: string, name: string)
    ensures Apply(m, AssigneeAdded(pid, name)).Some?
    ensures Apply(Apply(m, AssigneeAdded(pid, name)).value, AssigneeAdded(pid, name)).Some?
    ensures Apply(Apply(m, AssigneeAdded(pid, name)).value, AssigneeAdded(pid, name)).value.assignees[pid]
            == ListOrEmpty(m.assignees, pid) + [name, name]
  {
    var once := Apply(m, AssigneeAdded(pid, name)).value;
    assert ListOrEmpty(once.assignees, pid) == ListOrEmpty(m.assignees, pid) + [name];
    assert ListOrEmpty(m.assignees, pid) + [name] + [name] == ListOrEmpty(m.assignees, pid) + [name, name];
  }

  /** PROJECT_UPDATED, in contrast, is idempotent: the replaced entry keeps its index. */
  lemma ProjectUpdatedTwice(m: Mirror, p: Project)
    ensures Apply(m, ProjectUpdated(p)).Some?
    ensures Apply(Apply(m, ProjectUpdated(p)).value, ProjectUpdated(p)) == Apply(m, ProjectUpdated(p))
  {
    var once := Apply(m, ProjectUpdated(p)).value;
    var i := ProjectIndex(m.projects, p.id);
    if i != -1 {
      assert once.projects == m.projects[i := p];
      var j := ProjectIndex(once.projects, p.id);
      assert once.projects[i].id == p.id;
      assert j == i;
      assert once.projects[i := p] == once.projects;
    }
  }

  /** TODO_UPDATED is idempotent as well. */
  lemma TodoUpdatedTwice(m: Mirror, pid: string, t: Todo)
    ensures Apply(m, TodoUpdated(pid, t)).Some?
    ensures Apply(Apply(m, TodoUpdated(pid, t)).value, TodoUpdated(pid, t)) == Apply(m, TodoUpdated(pid, t))
  {
    var once := Apply(m, TodoUpdated(pid, t)).value;
    var list := ListOrEmpty(m.todos, pid);
    var i := TodoIndex(list, t.id);
    var list1 := ListOrEmpty(once.todos, pid);
    if i != -1 {
      assert list1 == list[i := t];
      var j := TodoIndex(list1, t.id);
      assert list1[i].id == t.id;
      assert j == i;
      assert list1[i := t] == list1;
      assert once.todos[pid := list1] == once.todos;
    } else {
      assert once.todos == m.todos[pid := list];
      assert list1 == list;
      assert once.todos[pid := list1] == once.todos;
    }
  }

  /** The page's mirror; `handleWebSocketMessage` changes it in place. */
  class Client {
    var projects: seq<Project>
    var todos: map<string, seq<Todo>>
    var assignees: map<string, seq<string>>

    function State(): Mirror
      reads this
    {
      Mirror(projects, todos, assignees)
    }

    constructor()
      ensures State() == Initial
    {
      projects, todos, assignees := [], map[], map[];
    }

    /**
     * `handleWebSocketMessage(data)`: applies the event to the mirror in place. A thrown
     * TypeError leaves the mirror as it was; rendering after the update is not modelled.
     */
    method HandleWebSocketMessage(e: Event) returns (outcome: Outcome)
      modifies this
      ensures outcome == Threw <==> Apply(old(State()), e).None?
      ensures outcome == Threw ==> State() == old(State())
      ensures outcome == Completed ==> State() == Apply(old(State()), e).value
    {
      outcome := Completed;
      match e
      case FullStateUpdate(ps, ts, pa) =>
        projects := ps;
        todos := ts;
        assignees := if pa.Some? then pa.value else map[];
      case ProjectAdded(p) =>
        projects := projects + [p];
      case ProjectUpdated(p) =>
        var i := ProjectIndex(projects, p.id);
        if i != -1 {
          projects := projects[i := p];
        }
      case ProjectDeleted(pid) =>
        projects := WithoutProject(projects, pid);
      case TodoAdded(_, _) =>
        ApplyTodoEvent(e);
      case TodoUpdated(_, _) =>
        ApplyTodoEvent(e);
      case TodoDeleted(_, _) =>
        ApplyTodoEvent(e);
      case AssigneeAdded(pid, name) =>
        if pid !in assignees {
          assignees := assignees[pid := []];
        }
        assignees := assignees[pid := assignees[pid] + [name]];
      case AssigneeDeleted(pid, name) =>
        if pid !in assignees {
          return Threw;
        }
        assignees := assignees[pid := WithoutName(assignees[pid], name)];
      case MemoUpdate(_, _) =>
      case Unrecognised(_) =>
    }

    /** The TODO_ADDED, TODO_UPDATED and TODO_DELETED cases: a missing list is created empty first. */
    method ApplyTodoEvent(e: Event)
      requires e.TodoAdded? || e.TodoUpdated? || e.TodoDeleted?
      modifies this
      ensures Apply(old(State()), e).Some? && State() == Apply(old(State()), e).value
    {
      if e.projectId !in todos {
        todos := todos[e.projectId := []];
      }
      match e
      case TodoAdded(pid, t) =>
        todos := todos[pid := todos[pid] + [t]];
      case TodoUpdated(pid, t) =>
        var i := TodoIndex(todos[pid], t.id);
        if i != -1 {
          todos := todos[pid := todos[pid][i := t]];
        }
      case TodoDeleted(pid, tid) =>
        todos := todos[pid := WithoutTodo(todos[pid], tid)];
    }
  }

  // ---------------------------------------------------------------------------------
  // getPriorityTodos (client.js): the urgent, uncompleted todos, most urgent first.
  // Dates are day numbers; `today` is the current day.

  /** The todo has a due date and it is at most `days` days away (or already past). */
  predicate DueWithin(t: Todo, today: int, days: int) {
    t.dueDate.Some? && t.dueDate.value - today <= days
  }

  /** The selection test: not completed, and high, or medium due within 3 days, or due within 1 day. */
  predicate Urgent(t: Todo, today: int) {
    && !t.completed
    && (|| t.priority == Some(High)
        || (t.priority == Some(Medium) && DueWithin(t, today, 3))
        || DueWithin(t, today, 1))
  }

  /**
   * The comparator's "strictly before": a higher rank comes first; for equal priorities the
   * earlier date does. A pair in which a priority or a date is missing compares as NaN,
   * which the sort treats as equal.
   */
  predicate UrgentBefore(a: Todo, b: Todo) {
    if a.priority != b.priority then
      a.priority.Some? && b.priority.Some? && Rank(a.priority.value) > Rank(b.priority.value)
    else
      a.dueDate.Some? && b.dueDate.Some? && a.dueDate.value < b.dueDate.value
  }

  lemma UrgentBeforeStrict()
    ensures Sorting.StrictOrder(UrgentBefore)
  {
  }

  /** Among todos that all have a priority and a due date the comparator is consistent. */
  lemma UrgentBeforeConsistent(ts: seq<Todo>)
    requires forall t :: t in ts ==> t.priority.Some? && t.dueDate.Some?
    ensures Sorting.StrictWeakOrderOn(ts, UrgentBefore)
  {
    forall a, b, c | a in ts && b in ts && c in ts
        && !UrgentBefore(a, b) && !UrgentBefore(b, a) && !UrgentBefore(b, c) && !UrgentBefore(c, b)
      ensures !UrgentBefore(a, c) && !UrgentBefore(c, a)
    {
      // neither before the other means the same priority and the same date
      assert Rank(a.priority.value) == Rank(b.priority.value) == Rank(c.priority.value);
    }
  }

  /**
   * A high todo without a date compares equal to two high todos with dates, while those
   * two are ordered by date: the comparator is inconsistent once a date is missing.
   */
  lemma UrgentBeforeInconsistent()
    ensures var a := Todo("a", Some("a"), false, None, Some(High), Some(2));
      var b := Todo("b", Some("b"), false, None, Some(High), None);
      var c := Todo("c", Some("c"), false, None, Some(High), Some(1));
      && !UrgentBefore(a, b) && !UrgentBefore(b, a)
      && !UrgentBefore(b, c) && !UrgentBefore(c, b)
      && UrgentBefore(c, a)
      && !Sorting.StrictWeakOrderOn([a, b, c], UrgentBefore)
  {
    var a := Todo("a", Some("a"), false, None, Some(High), Some(2));
    var b := Todo("b", Some("b"), false, None, Some(High), None);
    var c := Todo("c", Some("c"), false, None, Some(High), Some(1));
    assert a in [a, b, c] && b in [a, b, c] && c in [a, b, c];
  }

  /**
   * `getPriorityTodos(todos)`: exactly the urgent todos, each as often as in the input,
   * and, when each of them has a priority and a due date, no later one strictly before an
   * earlier one (otherwise the comparator is inconsistent and the engine's order is not
   * fixed).
   */
  function PriorityTodos(ts: seq<Todo>, today: int): (r: seq<Todo>)
    ensures forall t :: t in r <==> t in ts && Urgent(t, today)
    ensures multiset(r) == multiset(Lists.Keep(ts, (t: Todo) => Urgent(t, today)))
    ensures (forall t :: t in r ==> t.priority.Some? && t.dueDate.Some?) ==> Sorting.Sorted(r, UrgentBefore)
  {
    var selected := Lists.Keep(ts, (t: Todo) => Urgent(t, today));
    var r := Sorting.SortBy(selected, UrgentBefore);
    UrgentBeforeStrict();
    Sorting.SortBySorted(selected, UrgentBefore);
    assert forall t :: t in r <==> t in selected by {
      forall t ensures t in r <==> t in selected {
        assert t in r <==> t in multiset(r);
        assert t in selected <==> t in multiset(selected);
      }
    }
    r
  }

  /**
   * The order of `getPriorityTodos` when every urgent todo has a priority and a due date:
   * no completed todo, ranks never increase along the result, and within one priority the
   * due dates never decrease.
   */
  lemma PriorityTodosOrder(ts: seq<Todo>, today: int)
    requires forall t :: t in ts && Urgent(t, today) ==> t.priority.Some? && t.dueDate.Some?
    ensures var r := PriorityTodos(ts, today);
      && (forall i :: 0 <= i < |r| ==> !r[i].completed)
      && (forall i, j :: 0 <= i < j < |r| ==> Rank(r[i].priority.value) >= Rank(r[j].priority.value))
      && (forall i, j :: 0 <= i < j < |r| && r[i].priority == r[j].priority ==>
            r[i].dueDate.value <= r[j].dueDate.value)
  {
    var r := PriorityTodos(ts, today);
    assert forall t :: t in r ==> t.priority.Some? && t.dueDate.Some?;
    forall i | 0 <= i < |r| ensures !r[i].completed {
      assert r[i] in r;
    }
    forall i, j | 0 <= i < j < |r| ensures !UrgentBefore(r[j], r[i]) {
    }
  }

  // ---------------------------------------------------------------------------------
  // updateAssigneeProgress (client.js): one line for the unassigned todos, then one per
  // assignee name.

  /** The label of the bucket for todos without an assignee. */
  const Unassigned: string := "미지정"

  /** `todo.assignee || '미지정'`: the bucket a todo is counted in. */
  function Bucket(t: Todo): string {
    if Truthy(t.assignee) then t.assignee.value else Unassigned
  }

  /** The todos counted under `name`. */
  function InBucket(ts: seq<Todo>, name: string): (r: seq<Todo>)
    ensures forall t :: t in r <==> t in ts && Bucket(t) == name
  {
    Lists.Keep(ts, (t: Todo) => Bucket(t) == name)
  }

  /** One line per name, in order. */
  function RowsFor(ts: seq<Todo>, names: seq<string>): (r: seq<Progress.ProgressRow>)
    ensures |r| == |names|
    ensures forall k :: 0 <= k < |names| ==> r[k] == Progress.RowOf(names[k], InBucket(ts, names[k]))
  {
    if names == [] then [] else [Progress.RowOf(names[0], InBucket(ts, names[0]))] + RowsFor(ts, names[1..])
  }

  /** The lines of the assignee-progress panel: '미지정' first, then `getAssignees(pid)`. */
  function AssigneeRows(ts: seq<Todo>, names: seq<string>): (r: seq<Progress.ProgressRow>)
    ensures |r| == |names| + 1
    ensures r[0].name == Unassigned
    ensures forall k :: 0 <= k < |names| ==> r[k + 1].name == names[k]
    ensures forall k :: 0 <= k < |r| ==> 0 <= r[k].percent <= 100 && r[k].completed <= r[k].total
  {
    RowsFor(ts, [Unassigned] + names)
  }

  /** The sum of the lines' todo totals. */
  function TotalOfRows(rows: seq<Progress.ProgressRow>): nat {
    if rows == [] then 0 else rows[0].total + TotalOfRows(rows[1..])
  }

  /** How often `x` occurs in `s`. */
  function Occurrences(s: seq<string>, x: string): nat {
    if s == [] then 0 else (if s[0] == x then 1 else 0) + Occurrences(s[1..], x)
  }

  lemma {:induction false} OccurrencesOnce(s: seq<string>, x: string)
    requires Lists.NoDuplicates(s) && x in s
    ensures Occurrences(s, x) == 1
  {
    if s[0] == x {
      OccurrencesNone(s[1..], x);
    } else {
      OccurrencesOnce(s[1..], x);
    }
  }

  lemma {:induction false} OccurrencesNone(s: seq<string>, x: string)
    requires x !in s
    ensures Occurrences(s, x) == 0
  {
    if s != [] {
      OccurrencesNone(s[1..], x);
    }
  }

  /** Adding one todo in front adds one to the line of its bucket, once per occurrence of that name. */
  lemma {:induction false} RowsForCons(t: Todo, rest: seq<Todo>, names: seq<string>)
    ensures TotalOfRows(RowsFor([t] + rest, names)) == Occurrences(names, Bucket(t)) + TotalOfRows(RowsFor(rest, names))
  {
    if names != [] {
      RowsForCons(t, rest, names[1..]);
      assert ([t] + rest)[0] == t && ([t] + rest)[1..] == rest;
    }
  }

  lemma {:induction false} RowsForNoTodos(names: seq<string>)
    ensures TotalOfRows(RowsFor([], names)) == 0
  {
    if names != [] {
      RowsForNoTodos(names[1..]);
    }
  }

  /**
   * Every todo is counted exactly once across the panel: when the names are distinct,
   * none is '미지정', and each todo's assignee is empty or one of the names, the lines'
   * totals add up to the number of todos.
   */
  lemma {:induction false} AssigneeRowsPartition(ts: seq<Todo>, names: seq<string>)
    requires Lists.NoDuplicates([Unassigned] + names)
    requires forall i :: 0 <= i < |ts| && Truthy(ts[i].assignee) ==> ts[i].assignee.value in names
    ensures TotalOfRows(AssigneeRows(ts, names)) == |ts|
  {
    var all := [Unassigned] + names;
    if ts == [] {
      RowsForNoTodos(all);
    } else {
      assert ts == [ts[0]] + ts[1..];
      AssigneeRowsPartition(ts[1..], names);
      RowsForCons(ts[0], ts[1..], all);
      assert Bucket(ts[0]) in all;
      OccurrencesOnce(all, Bucket(ts[0]));
      calc {
        TotalOfRows(AssigneeRows(ts, names));
        TotalOfRows(RowsFor([ts[0]] + ts[1..], all));
        Occurrences(all, Bucket(ts[0])) + TotalOfRows(RowsFor(ts[1..], all));
        1 + |ts[1..]|;
      }
    }
  }

  // ---------------------------------------------------------------------------------
  // getAssignees / getAssigneeOptions (client.js)

  /** `projectAssignees[pid] || []`. */
  function Assignees(m: Mirror, pid: string): (r: seq<string>)
    ensures pid in m.assignees ==> r == m.assignees[pid]
    ensures pid !in m.assignees ==> r == []
  {
    ListOrEmpty(m.assignees, pid)
  }

  /**
   * `getAssigneeOptions(pid, current)`: an unselected '미지정' option with the empty value,
   * then one option per name of `getAssignees(pid)`, selected exactly when the name equals
   * `current`. An undefined `current` takes the default '' (`Some("")`); `None` stands for
   * `null`.
   */
  function AssigneeOptions(m: Mirror, pid: string, current: Option<string>): (r: seq<SelectOption>)
    ensures |r| == |Assignees(m, pid)| + 1
    ensures r[0] == SelectOption("", Unassigned, false)
    ensures forall k :: 0 <= k < |Assignees(m, pid)| ==>
      var name := Assignees(m, pid)[k];
      r[k + 1].value == name && r[k + 1].caption == name && (r[k + 1].selected <==> current == Some(name))
  {
    [SelectOption("", Unassigned, false)] + NameOptions(Assignees(m, pid), current)
  }

  /**
   * With distinct names, exactly one option is selected when the current assignee is one of
   * the project's names, and none otherwise (the '미지정' option is never marked).
   */
  lemma AssigneeOptionsSelection(m: Mirror, pid: string, current: Option<string>)
    requires Lists.NoDuplicates(Assignees(m, pid))
    ensures SelectedCount(AssigneeOptions(m, pid, current)) ==
      (if current.Some? && current.value in Assignees(m, pid) then 1 else 0)
  {
    var r := AssigneeOptions(m, pid, current);
    assert r == [r[0]] + NameOptions(Assignees(m, pid), current);
    NameOptionsSelection(Assignees(m, pid), current);
  }

  /**
   * `updateAssigneeProgress(pid)`: the panel's lines over `todos[pid] || []` and
   * `['미지정', ...getAssignees(pid)]`. When the names are distinct, none is '미지정', and
   * every todo's assignee is empty or listed, each todo is counted in exactly one line.
   */
  function AssigneeProgress(m: Mirror, pid: string): (r: seq<Progress.ProgressRow>)
    ensures |r| == |Assignees(m, pid)| + 1
    ensures r[0].name == Unassigned
    ensures forall k :: 0 <= k < |Assignees(m, pid)| ==> r[k + 1].name == Assignees(m, pid)[k]
    ensures var ts := ListOrEmpty(m.todos, pid);
      Lists.NoDuplicates([Unassigned] + Assignees(m, pid)) &&
      (forall i :: 0 <= i < |ts| && Truthy(ts[i].assignee) ==> ts[i].assignee.value in Assignees(m, pid)) ==>
        TotalOfRows(r) == |ts|
  {
    var ts := ListOrEmpty(m.todos, pid);
    var names := Assignees(m, pid);
    var r := AssigneeRows(ts, names);
    assert Lists.NoDuplicates([Unassigned] + names) &&
           (forall i :: 0 <= i < |ts| && Truthy(ts[i].assignee) ==> ts[i].assignee.value in names) ==>
             TotalOfRows(r) == |ts| by {
      if Lists.NoDuplicates([Unassigned] + names) &&
         (forall i :: 0 <= i < |ts| && Truthy(ts[i].assignee) ==> ts[i].assignee.value in names) {
        AssigneeRowsPartition(ts, names);
      }
    }
    r
  }
}
