/**
 * The older editor store: modes, the ordered selection with its active id,
 * and the viewport camera, with the same selection rules as the client's.
 */
module LegacyEditorStore {
  import opened Wrappers
  import opened Seqs
  import opened SceneModel
  import opened EditorTypes
  import opened Selection

  datatype EditorState = EditorState(
    mode: EditorMode,
    renderMode: RenderMode,
    activeGizmo: Option<Gizmo>,
    selectedIds: seq<string>,
    activeId: Option<string>,
    camera: CameraState)

  const InitialState := EditorState(SelectMode, Shaded, None, [], None, InitialCamera)

  class Store {
    var mode: EditorMode
    var renderMode: RenderMode
    var activeGizmo: Option<Gizmo>
    var selectedIds: seq<string>
    var activeId: Option<string>
    var camera: CameraState

    function State(): EditorState
      reads this
    {
      EditorState(mode, renderMode, activeGizmo, selectedIds, activeId, camera)
    }

    /** The active id is the last selected id, and absent exactly when nothing is selected. */
    ghost predicate Valid()
      reads this
    {
      activeId == ActiveOf(selectedIds)
    }

    constructor ()
      ensures State() == InitialState && Valid()
    {
      mode := SelectMode;
      renderMode := Shaded;
      activeGizmo := None;
      selectedIds := [];
      activeId := None;
      camera := InitialCamera;
    }

    method SetMode(m: EditorMode)
      modifies this
      ensures State() == old(State()).(mode := m)
      ensures old(Valid()) ==> Valid()
    {
      mode := m;
    }

    method SetRenderMode(m: RenderMode)
      modifies this
      ensures State() == old(State()).(renderMode := m)
      ensures old(Valid()) ==> Valid()
    {
      renderMode := m;
    }

    /** `select(ids, append)`: replace, or take the order-preserving union without duplicates. */
    method Select(ids: seq<string>, append: bool)
      modifies this
      ensures State() == old(State()).(selectedIds := Selected(old(selectedIds), ids, append), activeId := activeId)
      ensures activeId == ActiveOf(selectedIds) && Valid()
      ensures append && NoDup(old(selectedIds)) ==>
        |old(selectedIds)| <= |selectedIds| && selectedIds == AddAll(old(selectedIds), ids)
    {
      var next := Selected(selectedIds, ids, append);
      if append && NoDup(selectedIds) {
        SelectAppend(selectedIds, ids);
      }
      selectedIds := next;
      activeId := ActiveOf(next);
    }

    /** `deselect(ids)`: drop exactly the given ids and recompute the active id. */
    method Deselect(ids: seq<string>)
      modifies this
      ensures State() == old(State()).(selectedIds := Remove(old(selectedIds), ids), activeId := activeId)
      ensures activeId == ActiveOf(selectedIds) && Valid()
    {
      selectedIds := Remove(selectedIds, ids);
      activeId := ActiveOf(selectedIds);
    }

    method ClearSelection()
      modifies this
      ensures State() == old(State()).(selectedIds := [], activeId := None)
      ensures Valid()
    {
      selectedIds := [];
      activeId := None;
    }

    /** `setCamera(update)`: merge the given camera fields, keep the others. */
    method SetCamera(p: CameraPatch)
      modifies this
      ensures State() == old(State()).(camera := MergeCamera(old(camera), p))
      ensures old(Valid()) ==> Valid()
    {
      camera := MergeCamera(camera, p);
    }
  }
}
