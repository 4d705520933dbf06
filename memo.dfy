/**
 * The memo page (client/js/memo.js): the flags `currentProjectId`, `isTyping` and
 * `isEditorVisible`, the editor's text, and the decision whether a memo update from the
 * server is applied at once, deferred or skipped. Timers are explicit events: an armed
 * timer fires only through its event, and the model takes every order of events.
 */
module Memo {
  import opened Wrappers
  import opened Records

  /** The typing pause after which `isTyping` is cleared, and the retry delay, in milliseconds. */
  const TypingInterval := 2000
  /** The delay from the last keystroke to the save, in milliseconds. */
  const SaveDelay := 300

  /**
   * The module's state and the memo page's elements:
   *   onPage     the memo page is shown (the textarea and the content pane exist);
   *   text       the textarea's value;
   *   rendered   the content last rendered into the content pane;
   *   retries    the contents of the deferred updates still waiting for their retry
   *              timer, oldest first (timers of equal delay fire in the order they were set);
   *   typingTimer, saveTimer  whether `typingTimer` and the textarea's save timer are armed.
   */
  datatype State = State(
    currentProjectId: Option<string>,
    isTyping: bool,
    isEditorVisible: bool,
    onPage: bool,
    text: string,
    rendered: Option<string>,
    retries: seq<string>,
    typingTimer: bool,
    saveTimer: bool,
    outbox: seq<Command>)

  /** At script load: no project, not typing, editor hidden, no page. */
  const Initial := State(None, false, false, false, "", None, [], false, false, [])

  /** What happens on the memo page. */
  datatype Step =
    | ShowMemo(projectId: string)              // showMemo(projectId)
    | LeavePage                                // another page replaces the main content
    | ToggleEditor                             // toggleEditor()
    | Input(value: string)                     // an `input` event on the textarea
    | TypingTimerFired                         // typingTimer's callback
    | SaveTimerFired                           // the textarea's save timer's callback: saveMemo()
    | MemoArrives(projectId: string, content: string)  // handleMemoUpdate(data)
    | RetryFired                               // the oldest deferred update's timer

  /**
   * `updateMemo(content)`: when the page is shown and the user is not typing, the
   * textarea takes the content and the pane renders it; otherwise nothing changes.
   */
  function ApplyMemo(s: State, content: string): (r: State)
    ensures s.onPage && !s.isTyping ==> r == s.(text := content, rendered := Some(content))
    ensures !(s.onPage && !s.isTyping) ==> r == s
  {
    if s.onPage && !s.isTyping then s.(text := content, rendered := Some(content)) else s
  }

  /** The state after one step. */
  function Next(s: State, step: Step): (r: State)
    ensures r.isEditorVisible == (if step.ToggleEditor? then !s.isEditorVisible else s.isEditorVisible)
    ensures step.ShowMemo? ==> r.currentProjectId == Some(step.projectId) && r.onPage
  {
    match step
    case ShowMemo(pid) =>
      // the page is built afresh: empty textarea and pane; loadMemo sends GET_MEMO
      s.(currentProjectId := Some(pid), onPage := true, text := "", rendered := None,
         outbox := s.outbox + [GetMemoCmd(pid)])
    case LeavePage =>
      s.(onPage := false)
    case ToggleEditor =>
      s.(isEditorVisible := !s.isEditorVisible)
    case Input(v) =>
      if s.onPage then s.(isTyping := true, text := v, typingTimer := true, saveTimer := true) else s
    case TypingTimerFired =>
      if s.typingTimer then s.(isTyping := false, typingTimer := false) else s
    case SaveTimerFired =>
      if !s.saveTimer then s
      else if s.onPage && Truthy(s.currentProjectId) then
        s.(saveTimer := false, outbox := s.outbox + [UpdateMemoCmd(s.currentProjectId.value, s.text)])
      else
        // without the textarea, `memoTextarea.value` throws; without a project nothing is sent
        s.(saveTimer := false)
    case MemoArrives(pid, content) =>
      if s.currentProjectId != Some(pid) then s
      else if !s.isTyping then ApplyMemo(s, content)
      else s.(retries := s.retries + [content])
    case RetryFired =>
      if s.retries == [] then s
      else
        var s' := s.(retries := s.retries[1..]);
        if !s.isTyping then ApplyMemo(s', s.retries[0]) else s'
  }

  /** The state after a sequence of steps. */
  function Run(s: State, steps: seq<Step>): State
    decreases |steps|
  {
    if steps == [] then s else Run(Next(s, steps[0]), steps[1..])
  }

  /** The flags are consistent: the user counts as typing only while the typing timer is armed. */
  predicate Valid(s: State) {
    s.isTyping ==> s.typingTimer
  }

  /** Every step keeps the flags consistent, so `isTyping` is always cleared again. */
  lemma NextValid(s: State, step: Step)
    requires Valid(s)
    ensures Valid(Next(s, step))
  {
  }

  lemma {:induction false} RunValid(s: State, steps: seq<Step>)
    requires Valid(s)
    ensures Valid(Run(s, steps))
    decreases |steps|
  {
    if steps != [] {
      NextValid(s, steps[0]);
      RunValid(Next(s, steps[0]), steps[1..]);
    }
  }

  /** An update for another project (or before any project is shown) changes nothing. */
  lemma OtherProjectIgnored(s: State, pid: string, content: string)
    requires s.currentProjectId != Some(pid)
    ensures Next(s, MemoArrives(pid, content)) == s
  {
  }

  /** When the user is not typing, a matching update replaces the editor's text. */
  lemma MatchingUpdateApplied(s: State, pid: string, content: string)
    requires s.currentProjectId == Some(pid) && !s.isTyping && s.onPage
    ensures Next(s, MemoArrives(pid, content)).text == content
    ensures Next(s, MemoArrives(pid, content)).rendered == Some(content)
  {
  }

  /**
   * While the user types, neither an arriving update nor a retry touches the editor:
   * the arriving one is queued for a retry instead.
   */
  lemma TypingKeepsEditor(s: State, step: Step)
    requires s.isTyping && (step.MemoArrives? || step.RetryFired?)
    ensures Next(s, step).text == s.text && Next(s, step).rendered == s.rendered
    ensures step.MemoArrives? && s.currentProjectId == Some(step.projectId) ==>
      Next(s, step).retries == s.retries + [step.content]
  {
  }

  /** An input sets `isTyping`; the typing timer, armed by that input, clears it. */
  lemma InputThenPause(s: State, v: string)
    requires s.onPage
    ensures Next(s, Input(v)).isTyping
    ensures !Next(Next(s, Input(v)), TypingTimerFired).isTyping
  {
  }

  /**
   * A deferred update is applied at its retry exactly when the user is not typing then
   * (and the page is still shown); otherwise it is dropped. Either way it leaves the queue.
   */
  lemma RetryAppliedOnlyIfIdle(s: State)
    requires s.retries != []
    ensures Next(s, RetryFired).retries == s.retries[1..]
    ensures !s.isTyping && s.onPage ==> Next(s, RetryFired).text == s.retries[0]
    ensures s.isTyping ==> Next(s, RetryFired).text == s.text
  {
  }

  /** A retry applies its content even when the user has meanwhile switched projects. */
  lemma RetryIgnoresProjectSwitch(s: State, pid: string, other: string, content: string)
    requires Valid(s) && s.currentProjectId == Some(pid) && s.isTyping && s.retries == []
    ensures
      var queued := Next(s, MemoArrives(pid, content));
      var paused := Next(queued, TypingTimerFired);
      var switched := Next(paused, ShowMemo(other));
      Next(switched, RetryFired).text == content
  {
  }

  /** `saveMemo` sends UPDATE_MEMO, with the textarea's text, only when a project is set. */
  lemma SaveSendsOnlyWithProject(s: State)
    requires s.saveTimer
    ensures
      var r := Next(s, SaveTimerFired);
      && (|r.outbox| == |s.outbox| + 1 <==> s.onPage && Truthy(s.currentProjectId))
      && (s.onPage && Truthy(s.currentProjectId) ==>
            r.outbox == s.outbox + [UpdateMemoCmd(s.currentProjectId.value, s.text)])
      && (!(s.onPage && Truthy(s.currentProjectId)) ==> r.outbox == s.outbox)
  {
  }

  /** Toggling twice restores the editor's visibility flag. */
  lemma ToggleTwice(s: State)
    ensures Next(Next(s, ToggleEditor), ToggleEditor) == s
  {
  }

  /**
   * `showMemo` hides the editor on screen but keeps `isEditorVisible`: after leaving the
   * page with the editor shown, the flag is still set on the next visit.
   */
  lemma ShowMemoKeepsEditorFlag(s: State, pid: string)
    ensures Next(s, ShowMemo(pid)).isEditorVisible == s.isEditorVisible
    ensures Next(s, ShowMemo(pid)).currentProjectId == Some(pid)
    ensures Next(s, ShowMemo(pid)).outbox == s.outbox + [GetMemoCmd(pid)]
  {
  }

  /** The page's module state; the handlers change it in place. */
  class MemoEditor {
    var currentProjectId: Option<string>
    var isTyping: bool
    var isEditorVisible: bool
    var onPage: bool
    var text: string
    var rendered: Option<string>
    var retries: seq<string>
    var typingTimer: bool
    var saveTimer: bool
    var outbox: seq<Command>

    function Current(): State
      reads this
    {
      State(currentProjectId, isTyping, isEditorVisible, onPage, text, rendered, retries, typingTimer, saveTimer, outbox)
    }

    constructor()
      ensures Current() == Initial
    {
      currentProjectId, isTyping, isEditorVisible, onPage := None, false, false, false;
      text, rendered, retries := "", None, [];
      typingTimer, saveTimer, outbox := false, false, [];
    }

    /** `showMemo(projectId)`. */
    method ShowMemo(projectId: string)
      modifies this
      ensures Current() == Next(old(Current()), Step.ShowMemo(projectId))
    {
      currentProjectId := Some(projectId);
      onPage, text, rendered := true, "", None;
      outbox := outbox + [GetMemoCmd(projectId)];
    }

    /** Another page replaces the memo page. */
    method LeavePage()
      modifies this
      ensures Current() == Next(old(Current()), Step.LeavePage)
    {
      onPage := false;
    }

    /** `toggleEditor()`. */
    method ToggleEditor()
      modifies this
      ensures Current() == Next(old(Current()), Step.ToggleEditor)
    {
      isEditorVisible := !isEditorVisible;
    }

    /** `updateMemo(content)`. */
    method UpdateMemo(content: string)
      modifies this
      ensures Current() == ApplyMemo(old(Current()), content)
    {
      if onPage && !isTyping {
        text := content;
        rendered := Some(content);
      }
    }

    /** The `input` listener on the textarea. */
    method Input(value: string)
      modifies this
      ensures Current() == Next(old(Current()), Step.Input(value))
    {
      if onPage {
        isTyping := true;
        text := value;
        typingTimer := true;
        saveTimer := true;
      }
    }

    /** typingTimer's callback. */
    method TypingTimerFired()
      modifies this
      ensures Current() == Next(old(Current()), Step.TypingTimerFired)
    {
      if typingTimer {
        isTyping := false;
        typingTimer := false;
      }
    }

    /** The save timer's callback, `saveMemo()`. */
    method SaveTimerFired()
      modifies this
      ensures Current() == Next(old(Current()), Step.SaveTimerFired)
    {
      if !saveTimer {
        return;
      }
      saveTimer := false;
      if onPage && currentProjectId.Some? && currentProjectId.value != "" {
        outbox := outbox + [UpdateMemoCmd(currentProjectId.value, text)];
      }
    }

    /** `handleMemoUpdate(data)`. */
    method HandleMemoUpdate(projectId: string, content: string)
      modifies this
      ensures Current() == Next(old(Current()), MemoArrives(projectId, content))
    {
      if currentProjectId == Some(projectId) {
        if !isTyping {
          UpdateMemo(content);
        } else {
          retries := retries + [content];
        }
      }
    }

    /** The oldest deferred update's timer. */
    method RetryFired()
      modifies this
      ensures Current() == Next(old(Current()), Step.RetryFired)
    {
      if retries != [] {
        var content := retries[0];
        retries := retries[1..];
        if !isTyping {
          UpdateMemo(content);
        }
      }
    }
  }
}
