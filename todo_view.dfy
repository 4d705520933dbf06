/**
 * The views the modular client derives from a project's todos (client/js/todo.js):
 * `filterAndSortTodos`, `getPriorityTodos`, the per-assignee lines of
 * `updateAssigneeProgress` and the completion rate of `showProjectStatistics`.
 */
module TodoView {
  import opened Wrappers
  import opened Records
  import Lists
  import Sorting
  import Text
  import Progress

  /**
   * The values of the `filter-priority`, `filter-assignee` and `sort-by` selects; `None`
   * when the select is not on the page.
   */
  datatype Filters = Filters(priority: Option<string>, assignee: Option<string>, sortBy: Option<string>)

  predicate PriorityFilterOn(f: Filters) {
    f.priority.Some? && f.priority.value != "all"
  }

  predicate AssigneeFilterOn(f: Filters) {
    f.assignee.Some? && f.assignee.value != "all"
  }

  /** Some filter narrows the list: a non-empty search term or an active select. */
  predicate Narrowing(term: string, f: Filters) {
    term != "" || PriorityFilterOn(f) || AssigneeFilterOn(f)
  }

  /** The search test: the lower-cased text or the (non-empty) lower-cased assignee contains the term. */
  predicate MatchesSearch(t: Todo, term: string) {
    || (t.text.Some? && Text.Includes(Text.ToLower(t.text.value), term))
    || (Truthy(t.assignee) && Text.Includes(Text.ToLower(t.assignee.value), term))
  }

  predicate MatchesPriority(t: Todo, value: string) {
    t.priority.Some? && PriorityName(t.priority.value) == value
  }

  predicate MatchesAssignee(t: Todo, value: string) {
    t.assignee == Some(value)
  }

  /** Every active filter accepts the todo. */
  predicate PassesFilters(t: Todo, term: string, f: Filters) {
    && (term != "" ==> MatchesSearch(t, term))
    && (PriorityFilterOn(f) ==> MatchesPriority(t, f.priority.value))
    && (AssigneeFilterOn(f) ==> MatchesAssignee(t, f.assignee.value))
  }

  /**
   * The three narrowing steps in the code's order: search, priority, assignee. With no
   * narrowing the result is the list itself (in the code: the very same array).
   */
  function Narrow(ts: seq<Todo>, term: string, f: Filters): (r: seq<Todo>)
    ensures forall t :: t in r <==> t in ts && PassesFilters(t, term, f)
    ensures multiset(r) <= multiset(ts)
    ensures !Narrowing(term, f) ==> r == ts
  {
    var searched := if term != "" then Lists.Keep(ts, (t: Todo) => MatchesSearch(t, term)) else ts;
    var byPriority := if PriorityFilterOn(f) then Lists.Keep(searched, (t: Todo) => MatchesPriority(t, f.priority.value)) else searched;
    if AssigneeFilterOn(f) then Lists.Keep(byPriority, (t: Todo) => MatchesAssignee(t, f.assignee.value)) else byPriority
  }

  /** 'priority': `priorityOrder[b] - priorityOrder[a] < 0`; a missing priority gives NaN, i.e. equal. */
  predicate PriorityBefore(a: Todo, b: Todo) {
    a.priority.Some? && b.priority.Some? && Rank(a.priority.value) > Rank(b.priority.value)
  }

  /** 'dueDate': `new Date(a) - new Date(b) < 0`; a missing date gives NaN, i.e. equal. */
  predicate DueBefore(a: Todo, b: Todo) {
    a.dueDate.Some? && b.dueDate.Some? && a.dueDate.value < b.dueDate.value
  }

  /** 'assignee': `(a.assignee || '').localeCompare(b.assignee || '') < 0`. */
  predicate AssigneeBefore(a: Todo, b: Todo) {
    Text.StrLess(a.assignee.GetOr(""), b.assignee.GetOr(""))
  }

  /** Any other sort value: the comparator returns 0. */
  predicate NeverBefore(a: Todo, b: Todo) {
    false
  }

  /** The comparator the `sort-by` value selects. */
  function Before(key: string): (Todo, Todo) -> bool {
    if key == "priority" then PriorityBefore
    else if key == "dueDate" then DueBefore
    else if key == "assignee" then AssigneeBefore
    else NeverBefore
  }

  /** Each comparator is a strict order, so the stable sort orders by it. */
  lemma BeforeStrict(key: string)
    ensures Sorting.StrictOrder(Before(key))
  {
    if key != "priority" && key != "dueDate" && key == "assignee" {
      forall a: Todo ensures !AssigneeBefore(a, a) {
        Text.StrLessIrreflexive(a.assignee.GetOr(""));
      }
      forall a: Todo, b: Todo, c: Todo | AssigneeBefore(a, b) && AssigneeBefore(b, c)
        ensures AssigneeBefore(a, c)
      {
        Text.StrLessTransitive(a.assignee.GetOr(""), b.assignee.GetOr(""), c.assignee.GetOr(""));
      }
    }
  }

  /**
   * The todo carries the field the `sort-by` value compares; 'assignee' always has a
   * value, since a missing one is compared as ''.
   */
  predicate HasSortKey(t: Todo, key: string) {
    && (key == "priority" ==> t.priority.Some?)
    && (key == "dueDate" ==> t.dueDate.Some?)
  }

  /** When every todo carries the compared field, each comparator is consistent. */
  lemma BeforeConsistent(ts: seq<Todo>, key: string)
    requires forall t :: t in ts ==> HasSortKey(t, key)
    ensures Sorting.StrictWeakOrderOn(ts, Before(key))
  {
    BeforeStrict(key);
    if key != "priority" && key != "dueDate" && key == "assignee" {
      forall a, b, c | a in ts && b in ts && c in ts
          && !AssigneeBefore(a, b) && !AssigneeBefore(b, a) && !AssigneeBefore(b, c) && !AssigneeBefore(c, b)
        ensures !AssigneeBefore(a, c) && !AssigneeBefore(c, a)
      {
        // neither before the other means the same assignee text
        if a.assignee.GetOr("") != b.assignee.GetOr("") {
          Text.StrLessTotal(a.assignee.GetOr(""), b.assignee.GetOr(""));
        }
        if b.assignee.GetOr("") != c.assignee.GetOr("") {
          Text.StrLessTotal(b.assignee.GetOr(""), c.assignee.GetOr(""));
        }
        Text.StrLessIrreflexive(a.assignee.GetOr(""));
      }
    }
  }

  /**
   * A missing priority makes the 'priority' comparator inconsistent: a high and a low todo
   * each compare equal to a todo without priority, yet the high one comes first.
   */
  lemma PriorityBeforeInconsistent()
    ensures var a := Todo("a", Some("a"), false, None, Some(High), None);
      var b := Todo("b", Some("b"), false, None, None, None);
      var c := Todo("c", Some("c"), false, None, Some(Low), None);
      && !PriorityBefore(a, b) && !PriorityBefore(b, a)
      && !PriorityBefore(b, c) && !PriorityBefore(c, b)
      && PriorityBefore(a, c)
      && !Sorting.StrictWeakOrderOn([a, b, c], PriorityBefore)
  {
    var a := Todo("a", Some("a"), false, None, Some(High), None);
    var b := Todo("b", Some("b"), false, None, None, None);
    var c := Todo("c", Some("c"), false, None, Some(Low), None);
    assert a in [a, b, c] && b in [a, b, c] && c in [a, b, c];
  }

  /**
   * `filterAndSortTodos(pid, term)` on the project's list `ts`: `None` when it throws
   * (a non-empty term reaches a todo without text); otherwise exactly the todos every
   * active filter accepts, each as often as in `ts`, sorted by the selected comparator
   * when every one of them carries the compared field (otherwise the comparator is
   * inconsistent and the engine's order is not fixed).
   */
  function FilterAndSort(ts: seq<Todo>, term: string, f: Filters): (r: Option<seq<Todo>>)
    ensures r.None? <==> term != "" && exists i :: 0 <= i < |ts| && ts[i].text.None?
    ensures r.Some? ==> forall t :: t in r.value <==> t in ts && PassesFilters(t, term, f)
    ensures r.Some? ==> multiset(r.value) == multiset(Narrow(ts, term, f))
    ensures r.Some? && f.sortBy.Some? && (forall t :: t in r.value ==> HasSortKey(t, f.sortBy.value)) ==>
      Sorting.Sorted(r.value, Before(f.sortBy.value))
    ensures r.Some? && f.sortBy.None? ==> r.value == Narrow(ts, term, f)
  {
    if term != "" && exists i :: 0 <= i < |ts| && ts[i].text.None? then None
    else
      var narrowed := Narrow(ts, term, f);
      if f.sortBy.None? then Some(narrowed)
      else
        var r := Sorting.SortBy(narrowed, Before(f.sortBy.value));
        BeforeStrict(f.sortBy.value);
        Sorting.SortBySorted(narrowed, Before(f.sortBy.value));
        assert forall t :: t in r <==> t in narrowed by {
          forall t ensures t in r <==> t in narrowed {
            assert t in r <==> t in multiset(r);
            assert t in narrowed <==> t in multiset(narrowed);
          }
        }
        Some(r)
  }

  /** Sorting todos that all have a priority by 'priority' leaves the ranks non-increasing. */
  lemma SortByPriorityRanks(ts: seq<Todo>, term: string, f: Filters)
    requires f.sortBy == Some("priority")
    requires FilterAndSort(ts, term, f).Some?
    requires forall t :: t in ts ==> t.priority.Some?
    ensures var r := FilterAndSort(ts, term, f).value;
      forall i, j :: 0 <= i < j < |r| ==> Rank(r[i].priority.value) >= Rank(r[j].priority.value)
  {
    var r := FilterAndSort(ts, term, f).value;
    assert forall t :: t in r ==> HasSortKey(t, "priority");
    assert Sorting.Sorted(r, PriorityBefore);
    forall i, j | 0 <= i < j < |r| ensures Rank(r[i].priority.value) >= Rank(r[j].priority.value) {
      assert !PriorityBefore(r[j], r[i]);
    }
  }

  /** An unknown sort key keeps the filtered order. */
  lemma UnknownSortKeepsOrder(ts: seq<Todo>, term: string, f: Filters)
    requires f.sortBy.Some? && f.sortBy.value !in {"priority", "dueDate", "assignee"}
    requires FilterAndSort(ts, term, f).Some?
    ensures FilterAndSort(ts, term, f).value == Narrow(ts, term, f)
  {
    Sorting.SortBySortedIdentity(Narrow(ts, term, f), NeverBefore);
  }

  /** `getPriorityTodos(todos)` of todo.js: the uncompleted todos of high priority, in their order. */
  predicate HighAndOpen(t: Todo) {
    !t.completed && t.priority == Some(High)
  }

  function HighPriorityTodos(ts: seq<Todo>): (r: seq<Todo>)
    ensures forall t :: t in r <==> t in ts && !t.completed && t.priority == Some(High)
  {
    Lists.Keep(ts, HighAndOpen)
  }

  /** The order of the input is kept: the selection of a concatenation concatenates the selections. */
  lemma HighPriorityTodosAppend(a: seq<Todo>, b: seq<Todo>)
    ensures HighPriorityTodos(a + b) == HighPriorityTodos(a) + HighPriorityTodos(b)
  {
    Lists.KeepAppend(a, b, HighAndOpen);
  }

  /** A list of open high-priority todos comes back unchanged. */
  lemma HighPriorityTodosAll(ts: seq<Todo>)
    requires forall i :: 0 <= i < |ts| ==> HighAndOpen(ts[i])
    ensures HighPriorityTodos(ts) == ts
  {
    Lists.KeepAll(ts, HighAndOpen);
  }

  /** The todos whose assignee is exactly `name`. */
  function AssignedTo(ts: seq<Todo>, name: string): (r: seq<Todo>)
    ensures forall t :: t in r <==> t in ts && t.assignee == Some(name)
  {
    Lists.Keep(ts, (t: Todo) => t.assignee == Some(name))
  }

  /**
   * `updateAssigneeProgress(pid)` of todo.js: one line per name of `getAssignees(pid)`
   * over the todos assigned to exactly that name. There is no line for unassigned todos.
   */
  function AssigneeRows(ts: seq<Todo>, names: seq<string>): (r: seq<Progress.ProgressRow>)
    ensures |r| == |names|
    ensures forall k :: 0 <= k < |names| ==> r[k] == Progress.RowOf(names[k], AssignedTo(ts, names[k]))
  {
    if names == [] then []
    else
      var rest := AssigneeRows(ts, names[1..]);
      assert forall k :: 1 <= k < |names| ==> names[k] == names[1..][k - 1];
      [Progress.RowOf(names[0], AssignedTo(ts, names[0]))] + rest
  }

  /**
   * A todo without an assignee, or with one that is not among the names, changes no line:
   * such todos are not counted anywhere.
   */
  lemma {:induction false} AssigneeRowsIgnoreOthers(ts: seq<Todo>, t: Todo, names: seq<string>)
    requires t.assignee.None? || t.assignee.value !in names
    ensures AssigneeRows(ts + [t], names) == AssigneeRows(ts, names)
  {
    if names != [] {
      Lists.KeepAppend(ts, [t], (u: Todo) => u.assignee == Some(names[0]));
      assert AssignedTo([t], names[0]) == [];
      assert AssignedTo(ts + [t], names[0]) == AssignedTo(ts, names[0]);
      AssigneeRowsIgnoreOthers(ts, t, names[1..]);
    }
  }

  /**
   * `Math.round(parseFloat((completed / total * 100).toFixed(2)))` from
   * `showProjectStatistics`: the rate is first rounded to hundredths of a percent
   * (`toFixed` takes the larger candidate on a tie) and then to a whole percent.
   */
  function StatisticsPercent(done: nat, total: nat): (r: int)
    ensures total == 0 ==> r == 0
    ensures Progress.Percent(done, total) <= r <= Progress.Percent(done, total) + 1
    ensures done <= total ==> 0 <= r <= 100
  {
    if total == 0 then 0
    else
      var hundredths := (20000 * done + total) / (2 * total);
      HundredthsNear(done, total);
      (hundredths + 50) / 100
  }

  /**
   * The rate rounded to hundredths of a percent lies within half a percent of the rate
   * rounded to a whole percent, and at 10000 hundredths at most while `done <= total`.
   */
  lemma HundredthsNear(done: nat, total: nat)
    requires total > 0
    ensures var p, h := Progress.Percent(done, total), (20000 * done + total) / (2 * total);
      && 100 * p - 50 <= h <= 100 * p + 50
      && (done <= total ==> h <= 10000)
  {
    var p := Progress.Percent(done, total);
    var n, d := 20000 * done + total, 2 * total;
    var h := n / d;
    assert d * h <= n < d * h + d by {
      assert n == d * h + n % d;
    }
    assert d * p <= 200 * done + total < d * p + d;
    assert d * (100 * p - 50) == 100 * (d * p) - 100 * total;
    assert d * (100 * p + 51) == 100 * (d * p) + 102 * total;
    if h < 100 * p - 50 {
      Progress.MulMonotone(d, h + 1, 100 * p - 50);
      assert false;
    }
    if h > 100 * p + 50 {
      Progress.MulMonotone(d, 100 * p + 51, h);
      assert false;
    }
    if done <= total && h > 10000 {
      Progress.MulMonotone(d, 10001, h);
      assert false;
    }
  }

  /** Completing more todos never lowers the percentage the statistics show. */
  lemma StatisticsPercentMonotone(done1: nat, done2: nat, total: nat)
    requires done1 <= done2
    ensures StatisticsPercent(done1, total) <= StatisticsPercent(done2, total)
  {
    if total > 0 {
      var h1 := (20000 * done1 + total) / (2 * total);
      var h2 := (20000 * done2 + total) / (2 * total);
      Progress.DivMonotone(20000 * done1 + total, 20000 * done2 + total, 2 * total);
      Progress.DivMonotone(h1 + 50, h2 + 50, 100);
    }
  }

  /**
   * The double rounding departs from one rounding: with 1 of 201 todos completed the rate
   * is 0.4975%, `toFixed(2)` gives "0.50" and the result is 1, where Math.round of the rate
   * itself, and the server's `updateProjectProgress`, give 0.
   */
  lemma StatisticsPercentDiffers()
    ensures StatisticsPercent(1, 201) == 1
    ensures Progress.Percent(1, 201) == 0
  {
  }
}
