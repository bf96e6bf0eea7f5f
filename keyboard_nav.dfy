/**
 * The reader's keyboard shortcuts: a key event decides at most one callback, in
 * a fixed order of checks, and whether the browser's default action is prevented.
 * The layout is right to left, so the left arrow goes to the next article.
 */
module KeyboardNav {
  import opened Wrappers

  datatype Action = SearchOpen | PreviousArticle | NextArticle | Escape

  /** The parts of a `keydown` event the handler reads. */
  datatype KeyEvent = KeyEvent(key: string, ctrlKey: bool, metaKey: bool, targetTagName: string, targetIsContentEditable: bool)

  /** Which of the optional callbacks the caller supplied. */
  datatype Callbacks = Callbacks(onSearchOpen: bool, onPreviousArticle: bool, onNextArticle: bool, onEscape: bool)

  /** What handling an event does: the callback called, if any, and whether
      `preventDefault` was called. */
  datatype Outcome = Outcome(called: Option<Action>, preventDefault: bool)

  function Provided(cbs: Callbacks, a: Action): bool {
    match a
    case SearchOpen => cbs.onSearchOpen
    case PreviousArticle => cbs.onPreviousArticle
    case NextArticle => cbs.onNextArticle
    case Escape => cbs.onEscape
  }

  /** `onX?.()`: the call happens only when the callback was supplied. */
  function CallIfProvided(cbs: Callbacks, a: Action): (r: Option<Action>)
    ensures r.Some? <==> Provided(cbs, a)
    ensures r.Some? ==> r.value == a
  {
    if Provided(cbs, a) then Some(a) else None
  }

  /** Typing targets: inputs, text areas and editable content. */
  predicate IsTypingTarget(e: KeyEvent) {
    e.targetTagName == "INPUT" || e.targetTagName == "TEXTAREA" || e.targetIsContentEditable
  }

  /** `handleKeyDown`. */
  function HandleKeyDown(enabled: bool, cbs: Callbacks, e: KeyEvent): (r: Outcome)
    ensures r.called.Some? ==> Provided(cbs, r.called.value)
    ensures !enabled ==> r == Outcome(None, false)
    ensures enabled && IsTypingTarget(e) ==>
      !r.preventDefault && r.called == (if e.key == "Escape" && cbs.onEscape then Some(Escape) else None)
  {
    if !enabled then Outcome(None, false)
    else if IsTypingTarget(e) then
      Outcome(if e.key == "Escape" && cbs.onEscape then Some(Escape) else None, false)
    else if (e.ctrlKey || e.metaKey) && e.key == "k" then Outcome(CallIfProvided(cbs, SearchOpen), true)
    else if e.key == "ArrowLeft" && !e.ctrlKey && !e.metaKey then Outcome(CallIfProvided(cbs, NextArticle), true)
    else if e.key == "ArrowRight" && !e.ctrlKey && !e.metaKey then Outcome(CallIfProvided(cbs, PreviousArticle), true)
    else if e.key == "Escape" then Outcome(CallIfProvided(cbs, Escape), false)
    else Outcome(None, false)
  }

  /** Outside typing targets: Ctrl+K or Cmd+K opens the search and prevents the
      default; plain arrows move between articles, left to the next; Escape
      calls its callback without preventing anything; any other key, or an arrow
      with Ctrl or Cmd, does nothing. */
  lemma OutsideTypingTargets(cbs: Callbacks, e: KeyEvent)
    requires !IsTypingTarget(e)
    ensures (e.ctrlKey || e.metaKey) && e.key == "k" ==>
      HandleKeyDown(true, cbs, e) == Outcome(if cbs.onSearchOpen then Some(SearchOpen) else None, true)
    ensures !e.ctrlKey && !e.metaKey && e.key == "ArrowLeft" ==>
      HandleKeyDown(true, cbs, e) == Outcome(if cbs.onNextArticle then Some(NextArticle) else None, true)
    ensures !e.ctrlKey && !e.metaKey && e.key == "ArrowRight" ==>
      HandleKeyDown(true, cbs, e) == Outcome(if cbs.onPreviousArticle then Some(PreviousArticle) else None, true)
    ensures e.key == "Escape" ==> HandleKeyDown(true, cbs, e) == Outcome(if cbs.onEscape then Some(Escape) else None, false)
    ensures (e.key !in ["k", "ArrowLeft", "ArrowRight", "Escape"] || ((e.ctrlKey || e.metaKey) && e.key != "k" && e.key != "Escape"))
      ==> HandleKeyDown(true, cbs, e) == Outcome(None, false)
  {
  }

  /** The default action is prevented exactly for the three navigation shortcuts
      outside typing targets, whether or not their callback was supplied. */
  lemma PreventDefaultExactly(enabled: bool, cbs: Callbacks, e: KeyEvent)
    ensures HandleKeyDown(enabled, cbs, e).preventDefault <==>
      enabled && !IsTypingTarget(e)
      && (((e.ctrlKey || e.metaKey) && e.key == "k")
          || (!e.ctrlKey && !e.metaKey && (e.key == "ArrowLeft" || e.key == "ArrowRight")))
  {
  }

  /** An entry of the shortcut list shown to the reader. */
  datatype KeyboardShortcut = KeyboardShortcut(key: string, ctrlKey: Option<bool>, action: Action, description: string)

  /** The `shortcuts` list. */
  function Shortcuts(): (r: seq<KeyboardShortcut>)
    ensures |r| == 4
    ensures r[0].key == "k" && r[1].key == "ArrowLeft" && r[2].key == "ArrowRight" && r[3].key == "Escape"
  {
    [ KeyboardShortcut("k", Some(true), SearchOpen, "فتح البحث"),
      KeyboardShortcut("ArrowLeft", None, NextArticle, "المادة التالية"),
      KeyboardShortcut("ArrowRight", None, PreviousArticle, "المادة السابقة"),
      KeyboardShortcut("Escape", None, Escape, "إغلاق") ]
  }

  /** The key press a shortcut entry describes, outside any typing target. */
  function PressOf(s: KeyboardShortcut): KeyEvent {
    KeyEvent(s.key, s.ctrlKey.GetOr(false), false, "BODY", false)
  }

  /** The list tells the truth: pressing each listed shortcut, with every callback
      supplied, calls exactly the action the list gives it. */
  lemma ShortcutsMatchHandler(i: nat)
    requires i < |Shortcuts()|
    ensures HandleKeyDown(true, Callbacks(true, true, true, true), PressOf(Shortcuts()[i])).called == Some(Shortcuts()[i].action)
  {
  }
}
