/**
 * The project list page (client/js/home.js): the dashboard counts of `updateDashboard`
 * and the match test of `searchProjects`. Its `addProject` is Forms.AddProjectRequest.
 */
module Home {
  import opened Wrappers
  import opened Records
  import Lists
  import Text

  /** `p.progress < 100`: a missing progress compares as NaN, so it is not ongoing. */
  predicate Ongoing(p: Project) {
    p.progress.Some? && p.progress.value < 100
  }

  /** `p.progress === 100`. */
  predicate Finished(p: Project) {
    p.progress == Some(100)
  }

  /** The three numbers of the dashboard. */
  datatype Dashboard = Dashboard(total: nat, ongoing: nat, completed: nat)

  /** How the two counts change when a list grows by one project at the front. */
  lemma CountsCons(p: Project, rest: seq<Project>)
    ensures Lists.Count([p] + rest, Ongoing) == (if Ongoing(p) then 1 else 0) + Lists.Count(rest, Ongoing)
    ensures Lists.Count([p] + rest, Finished) == (if Finished(p) then 1 else 0) + Lists.Count(rest, Finished)
  {
    Lists.KeepAppend([p], rest, Ongoing);
    Lists.KeepAppend([p], rest, Finished);
  }

  /** No project is both ongoing and completed, so the two counts fit in the list. */
  lemma {:induction false} CountDisjoint(ps: seq<Project>)
    ensures Lists.Count(ps, Ongoing) + Lists.Count(ps, Finished) <= |ps|
  {
    if ps != [] {
      assert ps == [ps[0]] + ps[1..];
      CountsCons(ps[0], ps[1..]);
      CountDisjoint(ps[1..]);
    }
  }

  /** The progress is present and at most 100. */
  predicate Bounded(p: Project) {
    p.progress.Some? && p.progress.value <= 100
  }

  /** A bounded progress is below 100 or exactly 100. */
  lemma BoundedSplit(p: Project)
    requires Bounded(p)
    ensures Ongoing(p) != Finished(p)
  {
    if !Ongoing(p) {
      assert p.progress.value == 100;
      assert p.progress == Some(100);
    }
  }

  /** With every progress present and at most 100, every project is in one of the two counts. */
  lemma {:induction false} CountCover(ps: seq<Project>)
    requires forall p :: p in ps ==> Bounded(p)
    ensures Lists.Count(ps, Ongoing) + Lists.Count(ps, Finished) == |ps|
  {
    if ps != [] {
      var p, rest := ps[0], ps[1..];
      assert ps == [p] + rest;
      CountsCons(p, rest);
      assert forall q :: q in rest ==> q in ps;
      CountCover(rest);
      assert Bounded(p);
      BoundedSplit(p);
    }
  }

  /**
   * `updateDashboard()`: all projects, those with progress below 100 and those at exactly
   * 100. A project with no progress or one above 100 is in neither of the last two.
   */
  function DashboardOf(ps: seq<Project>): (r: Dashboard)
    ensures r.total == |ps|
    ensures r.ongoing == Lists.Count(ps, Ongoing) && r.completed == Lists.Count(ps, Finished)
    ensures r.ongoing + r.completed <= r.total
    ensures r.ongoing == 0 <==> forall i :: 0 <= i < |ps| ==> !Ongoing(ps[i])
    ensures r.completed == 0 <==> forall i :: 0 <= i < |ps| ==> ps[i].progress != Some(100)
  {
    CountDisjoint(ps);
    Dashboard(|ps|, Lists.Count(ps, Ongoing), Lists.Count(ps, Finished))
  }

  /** When every progress is present and in 0..100, every project is ongoing or completed. */
  lemma DashboardPartition(ps: seq<Project>)
    requires forall i :: 0 <= i < |ps| ==> ps[i].progress.Some? && 0 <= ps[i].progress.value <= 100
    ensures DashboardOf(ps).ongoing + DashboardOf(ps).completed == DashboardOf(ps).total
  {
    assert forall p :: p in ps ==> Bounded(p);
    CountCover(ps);
  }

  /** A freshly added project (progress 0) is counted as ongoing. */
  lemma NewProjectOngoing(ps: seq<Project>, p: Project)
    requires p.progress == Some(0)
    ensures DashboardOf(ps + [p]).ongoing == DashboardOf(ps).ongoing + 1
    ensures DashboardOf(ps + [p]).completed == DashboardOf(ps).completed
    ensures DashboardOf(ps + [p]).total == DashboardOf(ps).total + 1
  {
    Lists.KeepAppend(ps, [p], Ongoing);
    Lists.KeepAppend(ps, [p], Finished);
  }

  /**
   * `searchProjects()`: an item stays visible exactly when its lower-cased name contains
   * the lower-cased search term.
   */
  function Shows(name: string, term: string): (b: bool)
    ensures b ==> exists i :: Text.OccursAt(Text.ToLower(name), Text.ToLower(term), i)
    ensures (exists i :: Text.OccursAt(Text.ToLower(name), Text.ToLower(term), i)) ==> b
  {
    Text.Includes(Text.ToLower(name), Text.ToLower(term))
  }

  /** The visibility of every item of the list, in order. */
  function Visibility(names: seq<string>, term: string): (r: seq<bool>)
    ensures |r| == |names|
    ensures forall k :: 0 <= k < |names| ==> r[k] == Shows(names[k], term)
  {
    if names == [] then [] else [Shows(names[0], term)] + Visibility(names[1..], term)
  }

  /** An empty term shows every item. */
  lemma EmptyTermShowsAll(names: seq<string>)
    ensures forall k :: 0 <= k < |names| ==> Visibility(names, "")[k]
  {
    forall k | 0 <= k < |names| ensures Shows(names[k], "") {
      assert Text.OccursAt(Text.ToLower(names[k]), Text.ToLower(""), 0);
    }
  }

  /** Lower-casing twice is lower-casing once. */
  lemma ToLowerTwice(s: string)
    ensures Text.ToLower(Text.ToLower(s)) == Text.ToLower(s)
  {
    var once := Text.ToLower(s);
    var twice := Text.ToLower(once);
    forall i | 0 <= i < |s| ensures twice[i] == once[i] {
      assert once[i] == Text.LowerChar(s[i]);
    }
  }

  /** The match ignores the case of both the name and the term. */
  lemma ShowsIgnoresCase(name: string, term: string)
    ensures Shows(name, term) == Shows(Text.ToLower(name), Text.ToLower(term))
  {
    ToLowerTwice(name);
    ToLowerTwice(term);
  }

  /** Every name is shown for its own name as the term. */
  lemma ShowsOwnName(name: string)
    ensures Shows(name, name)
  {
    assert Text.ToLower(name)[0..|name|] == Text.ToLower(name);
    assert Text.OccursAt(Text.ToLower(name), Text.ToLower(name), 0);
  }
}
