/**
 * The assignee `<option>` lists the clients build: `getAssigneeOptions` of the modular
 * client (client/js/project.js and, word for word the same, client/js/todo.js) and the
 * name part of the single-file client's version.
 */
module Selects {
  import opened Wrappers
  import Lists

  /** One `<option>` of a select: its value, its visible text and whether it is marked selected. */
  datatype SelectOption = SelectOption(value: string, caption: string, selected: bool)

  /**
   * `assignees.map(a => <option value=a selected?>a</option>)`: one option per name, in
   * order, selected exactly when the name equals the current assignee. An omitted or
   * undefined assignee takes the default '' (`Some("")`); `None` stands for `null`, which
   * matches no name.
   */
  function NameOptions(names: seq<string>, current: Option<string>): (r: seq<SelectOption>)
    ensures |r| == |names|
    ensures forall k :: 0 <= k < |names| ==>
      r[k].value == names[k] && r[k].caption == names[k] && (r[k].selected <==> current == Some(names[k]))
  {
    if names == [] then []
    else [SelectOption(names[0], names[0], current == Some(names[0]))] + NameOptions(names[1..], current)
  }

  /** How many options are marked selected. */
  function SelectedCount(opts: seq<SelectOption>): nat {
    if opts == [] then 0 else (if opts[0].selected then 1 else 0) + SelectedCount(opts[1..])
  }

  /**
   * With distinct names, exactly one option is selected when the current assignee is one of
   * them, and none otherwise.
   */
  lemma {:induction false} NameOptionsSelection(names: seq<string>, current: Option<string>)
    requires Lists.NoDuplicates(names)
    ensures SelectedCount(NameOptions(names, current)) == (if current.Some? && current.value in names then 1 else 0)
  {
    if names != [] {
      var r := NameOptions(names, current);
      assert r[1..] == NameOptions(names[1..], current);
      NameOptionsSelection(names[1..], current);
      assert forall k :: 0 <= k < |names[1..]| ==> names[1..][k] == names[k + 1] != names[0];
      assert current.Some? && current.value in names <==>
             current == Some(names[0]) || (current.Some? && current.value in names[1..]);
    }
  }
}
