/**
 * The client's editor store: interaction modes, the ordered selection with
 * its active id, the viewport camera, and the tool, cursor, modifier,
 * navigation, view, renaming and delete-dialog state the shortcut system
 * drives. Every action replaces some fields and leaves the rest alone.
 */
module EditorStore {
  import opened Wrappers
  import opened Seqs
  import opened SceneModel
  import opened EditorTypes
  import opened ShortcutTypes
  import opened Selection

  /** All fields of the store at one moment. */
  datatype EditorState = EditorState(
    mode: EditorMode,
    renderMode: RenderMode,
    activeGizmo: Option<Gizmo>,
    selectedIds: seq<string>,
    activeId: Option<string>,
    camera: CameraState,
    activeTool: ToolType,
    cursorMode: CursorMode,
    modifiers: ModifierState,
    navigationMode: NavigationMode,
    viewMode: ViewMode,
    renamingId: Option<string>,
    showDeleteConfirmation: bool)

  /** The state of a fresh store. */
  const InitialState := EditorState(SelectMode, Shaded, None, [], None, InitialCamera, Hand, DefaultCursor,
                                    NoModifiers, Orbit, View3D, None, false)

  /** The active id is the last selected id, and absent exactly when nothing is selected. */
  ghost predicate ActiveIsLast(s: EditorState) {
    s.activeId == ActiveOf(s.selectedIds)
  }

  lemma InitialStateActiveIsLast()
    ensures ActiveIsLast(InitialState)
    ensures InitialState.selectedIds == [] && InitialState.activeId == None
  {
  }

  class Store {
    var mode: EditorMode
    var renderMode: RenderMode
    var activeGizmo: Option<Gizmo>
    var selectedIds: seq<string>
    var activeId: Option<string>
    var camera: CameraState
    var activeTool: ToolType
    var cursorMode: CursorMode
    var modifiers: ModifierState
    var navigationMode: NavigationMode
    var viewMode: ViewMode
    var renamingId: Option<string>
    var showDeleteConfirmation: bool

    function State(): EditorState
      reads this
    {
      EditorState(mode, renderMode, activeGizmo, selectedIds, activeId, camera, activeTool, cursorMode,
                  modifiers, navigationMode, viewMode, renamingId, showDeleteConfirmation)
    }

    ghost predicate Valid()
      reads this
    {
      ActiveIsLast(State())
    }

    constructor ()
      ensures State() == InitialState && Valid()
    {
      mode := SelectMode;
      renderMode := Shaded;
      activeGizmo := None;
      selectedIds := [];
      activeId := None;
      camera := InitialCamera;
      activeTool := Hand;
      cursorMode := DefaultCursor;
      modifiers := NoModifiers;
      navigationMode := Orbit;
      viewMode := View3D;
      renamingId := None;
      showDeleteConfirmation := false;
    }

    method SetMode(m: EditorMode)
      modifies this
      ensures State() == old(State()).(mode := m)
      ensures old(Valid()) ==> Valid()
    {
      mode := m;
    }

    method SetRenderMode(m: RenderMode)
      modifies this
      ensures State() == old(State()).(renderMode := m)
      ensures old(Valid()) ==> Valid()
    {
      renderMode := m;
    }

    method SetActiveTool(t: ToolType)
      modifies this
      ensures State() == old(State()).(activeTool := t)
      ensures old(Valid()) ==> Valid()
    {
      activeTool := t;
    }

    method SetCursorMode(c: CursorMode)
      modifies this
      ensures State() == old(State()).(cursorMode := c)
      ensures old(Valid()) ==> Valid()
    {
      cursorMode := c;
    }

    /** `setModifiers(mods)`: merge the given flags, keep the others. */
    method SetModifiers(p: ModifierPatch)
      modifies this
      ensures State() == old(State()).(modifiers := MergeModifiers(old(modifiers), p))
      ensures old(Valid()) ==> Valid()
    {
      modifiers := MergeModifiers(modifiers, p);
    }

    method SetNavigationMode(n: NavigationMode)
      modifies this
      ensures State() == old(State()).(navigationMode := n)
      ensures old(Valid()) ==> Valid()
    {
      navigationMode := n;
    }

    method SetViewMode(v: ViewMode)
      modifies this
      ensures State() == old(State()).(viewMode := v)
      ensures old(Valid()) ==> Valid()
    {
      viewMode := v;
    }

    method SetRenamingId(id: Option<string>)
      modifies this
      ensures State() == old(State()).(renamingId := id)
      ensures old(Valid()) ==> Valid()
    {
      renamingId := id;
    }

    method SetDeleteConfirmation(visible: bool)
      modifies this
      ensures State() == old(State()).(showDeleteConfirmation := visible)
      ensures old(Valid()) ==> Valid()
    {
      showDeleteConfirmation := visible;
    }

    /**
     * `select(ids, append)`: replace the selection with `ids`, or append the
     * ids not yet selected; the active id becomes the last selected one.
     */
    method Select(ids: seq<string>, append: bool)
      modifies this
      ensures State() == old(State()).(selectedIds := Selected(old(selectedIds), ids, append), activeId := activeId)
      ensures activeId == ActiveOf(selectedIds) && Valid()
      ensures append && NoDup(old(selectedIds)) ==>
        |old(selectedIds)| <= |selectedIds| && selectedIds == AddAll(old(selectedIds), ids)
    {
      var next := Selected(selectedIds, ids, append);
      if append && NoDup(selectedIds) {
        SelectAppend(selectedIds, ids);
      }
      selectedIds := next;
      activeId := ActiveOf(next);
    }

    /** `deselect(ids)`: drop exactly the given ids, keep the order of the rest. */
    method Deselect(ids: seq<string>)
      modifies this
      ensures State() == old(State()).(selectedIds := Remove(old(selectedIds), ids), activeId := activeId)
      ensures activeId == ActiveOf(selectedIds) && Valid()
    {
      selectedIds := Remove(selectedIds, ids);
      activeId := ActiveOf(selectedIds);
    }

    method ClearSelection()
      modifies this
      ensures State() == old(State()).(selectedIds := [], activeId := None)
      ensures Valid()
    {
      selectedIds := [];
      activeId := None;
    }

    /** `setCamera(update)`: merge the given camera fields, keep the others. */
    method SetCamera(p: CameraPatch)
      modifies this
      ensures State() == old(State()).(camera := MergeCamera(old(camera), p))
      ensures old(Valid()) ==> Valid()
    {
      camera := MergeCamera(camera, p);
    }
  }
}
