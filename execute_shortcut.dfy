/**
 * Running a shortcut's action against the editor store: picking a tool,
 * selecting every object of the scene, or starting to rename the active
 * object. The other actions only log a warning and change nothing.
 */
module ExecuteShortcut {
  import opened Wrappers
  import opened Seqs
  import opened ShortcutTypes
  import opened Selection
  import opened EditorStore
  import SceneStore

  /** Whether `renameObject` has an object to rename: an active id that is not the empty string. */
  predicate HasRenameTarget(s: EditorState) {
    s.activeId.Some? && s.activeId.value != ""
  }

  /**
   * The editor state after running `a`, where `allIds` is the scene's object
   * ids in the order `Object.keys` lists them.
   */
  function Dispatched(s: EditorState, a: ShortcutAction, allIds: seq<string>): (r: EditorState)
    requires a.action == SetTool ==> a.params.Some?
    ensures a.action == SetTool ==> r.activeTool == a.params.value && r.(activeTool := s.activeTool) == s
    ensures a.action == SelectAll ==> r.selectedIds == allIds && r.activeId == ActiveOf(allIds)
    ensures a.action == SelectAll ==> r.(selectedIds := s.selectedIds, activeId := s.activeId) == s
    ensures a.action == RenameObject && HasRenameTarget(s) ==> r == s.(renamingId := s.activeId)
    ensures a.action == RenameObject && !HasRenameTarget(s) ==> r == s
    ensures a.action !in {SetTool, SelectAll, RenameObject} ==> r == s
  {
    match a.action
    case SetTool => s.(activeTool := a.params.value)
    case SelectAll => s.(selectedIds := allIds, activeId := ActiveOf(allIds))
    case RenameObject => if HasRenameTarget(s) then s.(renamingId := s.activeId) else s
    case _ => s
  }

  /** Running any shortcut keeps the active id the last selected id. */
  lemma DispatchedKeepsActiveLast(s: EditorState, a: ShortcutAction, allIds: seq<string>)
    requires a.action == SetTool ==> a.params.Some?
    requires ActiveIsLast(s)
    ensures ActiveIsLast(Dispatched(s, a, allIds))
  {
  }

  /** Select-all selects every object of the scene exactly once, the last listed one active. */
  lemma SelectAllSelectsEverything(s: EditorState, a: ShortcutAction, allIds: seq<string>, objectIds: set<string>)
    requires a.action == SelectAll
    requires NoDup(allIds) && (forall x :: x in allIds <==> x in objectIds)
    ensures var r := Dispatched(s, a, allIds);
      && (forall x :: x in r.selectedIds <==> x in objectIds)
      && NoDup(r.selectedIds)
      && (objectIds == {} <==> r.activeId == None)
  {
    if objectIds != {} {
      var x :| x in objectIds;
      assert x in allIds;
    }
  }

  /**
   * `executeShortcut(shortcut)`. The scene's ids reach `select` in
   * `Object.keys` order, which is the parameter `allIds`.
   */
  method Execute(a: ShortcutAction, editor: Store, scene: SceneStore.Store, allIds: seq<string>)
    requires a.action == SetTool ==> a.params.Some?
    requires NoDup(allIds) && forall x :: x in allIds <==> x in scene.scene.objects
    modifies editor
    ensures editor.State() == Dispatched(old(editor.State()), a, allIds)
  {
    match a.action {
      case SetTool =>
        editor.SetActiveTool(a.params.value);
      case SelectAll =>
        editor.Select(allIds, false);
      case RenameObject =>
        var activeId := editor.activeId;
        if activeId.Some? && activeId.value != "" {
          editor.SetRenamingId(activeId);
        }
      case _ =>
    }
  }
}
