/**
 * Completion percentages: `total > 0 ? Math.round((completed / total) * 100) : 0`,
 * computed here exactly on integers.
 */
module Progress {
  import opened Records
  import Lists

  /** A todo counts as completed when its `completed` field is truthy. */
  predicate IsCompleted(t: Todo) {
    t.completed
  }

  /** `todos.filter(todo => todo.completed).length`. */
  function CompletedCount(ts: seq<Todo>): (n: nat)
    ensures n <= |ts|
  {
    Lists.Count(ts, IsCompleted)
  }

  /**
   * Math.round(100 * done / total), or 0 for no todos. Math.round(x) is floor(x + 1/2),
   * so the result r is the integer with r <= 100 * done / total + 1/2 < r + 1.
   */
  function Percent(done: nat, total: nat): (r: int)
    ensures total == 0 ==> r == 0
    ensures total > 0 ==> 2 * total * r <= 200 * done + total < 2 * total * (r + 1)
    ensures done <= total ==> 0 <= r <= 100
    ensures done == 0 ==> r == 0
    ensures 0 < done == total ==> r == 100
  {
    if total == 0 then 0
    else
      var n, d := 200 * done + total, 2 * total;
      var q := n / d;
      assert d * q <= n < d * q + d by {
        assert n == d * q + n % d;
      }
      assert done <= total ==> q <= 100 by {
        if done <= total && q > 100 {
          MulMonotone(d, 101, q);
        }
      }
      assert q >= 0 by {
        if q < 0 {
          MulMonotone(d, q, -1);
        }
      }
      assert done == 0 ==> q == 0 by {
        if done == 0 && q > 0 {
          MulMonotone(d, 1, q);
        }
      }
      assert done == total ==> q >= 100 by {
        if done == total && q < 100 {
          MulMonotone(d, q + 1, 100);
        }
      }
      q
  }

  lemma MulMonotone(d: nat, a: int, b: int)
    requires a <= b
    ensures d * a <= d * b
  {
  }

  lemma DivMonotone(a: int, b: int, d: int)
    requires a <= b && d > 0
    ensures a / d <= b / d
  {
    assert a == d * (a / d) + a % d && b == d * (b / d) + b % d;
    if a / d > b / d {
      MulMonotone(d, b / d + 1, a / d);
      assert false;
    }
  }

  /** A project's progress: the rounded share of its todos that are completed. */
  function ProgressOf(ts: seq<Todo>): (r: int)
    ensures 0 <= r <= 100
    ensures ts == [] ==> r == 0
    ensures CompletedCount(ts) == |ts| && ts != [] ==> r == 100
    ensures r == 0 <== CompletedCount(ts) == 0
  {
    Percent(CompletedCount(ts), |ts|)
  }

  /** One line of a per-assignee progress panel: a name, its completed and total counts, and the percentage. */
  datatype ProgressRow = ProgressRow(name: string, completed: nat, total: nat, percent: int)

  /**
   * The line for `name` over the todos that fall in its bucket: `completed` of them are
   * done, `total` is their number and the percentage rounds `100 * completed / total`.
   */
  function RowOf(name: string, bucket: seq<Todo>): (r: ProgressRow)
    ensures r.name == name && r.total == |bucket|
    ensures r.completed <= r.total
    ensures r.completed == Lists.Count(bucket, IsCompleted)
    ensures 0 <= r.percent <= 100
    ensures r.total == 0 ==> r.percent == 0
    ensures r.total > 0 ==> 2 * r.total * r.percent <= 200 * r.completed + r.total < 2 * r.total * (r.percent + 1)
  {
    ProgressRow(name, CompletedCount(bucket), |bucket|, ProgressOf(bucket))
  }
}
