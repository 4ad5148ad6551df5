/**
 * The global keydown handler: it ignores keys typed into a text field,
 * builds the shortcut string of the event, looks it up in the default
 * table, checks the entry's context (a selection, the 3D view) and runs it.
 */
module KeyboardShortcutManager {
  import opened Wrappers
  import opened Seqs
  import opened ShortcutTypes
  import opened Platform
  import opened ShortcutRegistry
  import opened EditorStore
  import opened ExecuteShortcut
  import SceneStore

  /** The focused element, as far as the handler looks at it. */
  datatype FocusTarget = NoFocus | Element(tagName: string, contentEditable: string)

  /** Whether keys currently go into a text field: an input, a text area or an editable element. */
  predicate TypingFocus(t: FocusTarget) {
    t.Element? && (t.tagName == "INPUT" || t.tagName == "TEXTAREA" || t.contentEditable == "true")
  }

  /**
   * Which table entry a key press runs: none while typing, none for a key
   * the table lacks, none for a selection shortcut with nothing selected and
   * none for a 3D-only shortcut in the 2D view; otherwise the key's entry.
   */
  function Decide(key: string, target: FocusTarget, selectedCount: nat, view: ViewMode): (r: Option<ShortcutAction>)
    ensures r.Some? ==> key in DefaultShortcuts && r.value == DefaultShortcuts[key]
    ensures r.Some? <==>
      && !TypingFocus(target)
      && key in DefaultShortcuts
      && !(DefaultShortcuts[key].requiresSelection && selectedCount == 0)
      && !(DefaultShortcuts[key].disabledIn2D && view == View2D)
  {
    if TypingFocus(target) then None
    else match Lookup(key)
      case None => None
      case Some(entry) =>
        if entry.requiresSelection && selectedCount == 0 then None
        else if entry.disabledIn2D && view == View2D then None
        else Some(entry)
  }

  /** The rotate key does nothing in the 2D view and picks the rotate tool in 3D outside text fields. */
  lemma RotateKeyOnlyIn3D(target: FocusTarget, selectedCount: nat)
    ensures Decide("KeyE", target, selectedCount, View2D) == None
    ensures !TypingFocus(target) ==>
      Decide("KeyE", target, selectedCount, View3D) == Some(ShortcutAction(SetTool, Some(Rotate), 1, false, true))
  {
  }

  /** With nothing selected no selection shortcut runs, whatever the key. */
  lemma NothingSelected(key: string, target: FocusTarget, view: ViewMode)
    ensures var r := Decide(key, target, 0, view);
      r.Some? ==> !r.value.requiresSelection
  {
  }

  /** Every entry the handler can run is one the dispatcher accepts. */
  lemma DecidedToolsHaveParams(key: string, target: FocusTarget, selectedCount: nat, view: ViewMode)
    ensures var r := Decide(key, target, selectedCount, view);
      r.Some? && r.value.action == SetTool ==> r.value.params.Some?
  {
    ToolEntries();
  }

  /**
   * `handleKeyDown(e)`: decide as above on the event's shortcut string and
   * the editor's selection and view mode, then run the chosen entry (the
   * browser's default action is then prevented). `ran` is the entry run.
   */
  method HandleKeyDown(e: KeyEvent, isMac: bool, target: FocusTarget, editor: Store, scene: SceneStore.Store,
                       allIds: seq<string>) returns (ran: Option<ShortcutAction>)
    requires NoDup(allIds) && forall x :: x in allIds <==> x in scene.scene.objects
    modifies editor
    ensures ran == Decide(ModifierPrefix(GetModifiers(e, isMac)) + e.code, target,
                          |old(editor.selectedIds)|, old(editor.viewMode))
    ensures ran.None? ==> editor.State() == old(editor.State())
    ensures ran.Some? ==> ran.value.action == SetTool ==> ran.value.params.Some?
    ensures ran.Some? ==> editor.State() == Dispatched(old(editor.State()), ran.value, allIds)
  {
    if TypingFocus(target) {
      return None;
    }
    var key := BuildShortcutKey(e, isMac);
    var shortcut := Lookup(key);
    if shortcut.None? {
      return None;
    }
    var entry := shortcut.value;
    if entry.requiresSelection && |editor.selectedIds| == 0 {
      return None;
    }
    if entry.disabledIn2D && editor.viewMode == View2D {
      return None;
    }
    ToolEntries();
    Execute(entry, editor, scene, allIds);
    ran := Some(entry);
  }
}
