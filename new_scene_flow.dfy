/**
 * The "new scene" dialog flow: two dialog flags, one asking whether to save
 * unsaved changes and one asking for the new scene's name, driven by the
 * handlers the toolbar and the dialogs call. Whether the asynchronous save or
 * create succeeded is a parameter; the failure alert is left out.
 */
module NewSceneFlow {
  import opened Wrappers
  import opened Text
  import opened SceneNames
  import SceneStore
  import EditorStore

  class Flow {
    var showSaveConfirmDialog: bool
    var showNewSceneDialog: bool

    /** Both dialogs start closed. */
    constructor ()
      ensures !showSaveConfirmDialog && !showNewSceneDialog
    {
      showSaveConfirmDialog := false;
      showNewSceneDialog := false;
    }

    /** With unsaved changes ask whether to save them first; otherwise ask for the name straight away. */
    method HandleNewSceneClick(scene: SceneStore.Store)
      modifies this
      ensures scene.isDirty ==> showSaveConfirmDialog && showNewSceneDialog == old(showNewSceneDialog)
      ensures !scene.isDirty ==> showNewSceneDialog && showSaveConfirmDialog == old(showSaveConfirmDialog)
    {
      if scene.isDirty {
        showSaveConfirmDialog := true;
      } else {
        showNewSceneDialog := true;
      }
    }

    /**
     * Save the scene, then mark it clean and move on to the naming dialog.
     * `saved` is whether `autoSaveScene` resolved; when it rejected, nothing
     * changes.
     */
    method HandleSaveAndProceed(scene: SceneStore.Store, saved: bool)
      modifies this, scene
      ensures saved ==> !scene.isDirty && !showSaveConfirmDialog && showNewSceneDialog
      ensures !saved ==> scene.isDirty == old(scene.isDirty)
      ensures !saved ==> showSaveConfirmDialog == old(showSaveConfirmDialog) && showNewSceneDialog == old(showNewSceneDialog)
      ensures scene.scene == old(scene.scene) && scene.currentScenePath == old(scene.currentScenePath)
      ensures scene.importProgress == old(scene.importProgress) && scene.importErrors == old(scene.importErrors)
    {
      if saved {
        scene.MarkClean();
        showSaveConfirmDialog := false;
        showNewSceneDialog := true;
      }
    }

    /** Drop the unsaved changes and move on to the naming dialog. */
    method HandleDiscardAndProceed()
      modifies this
      ensures !showSaveConfirmDialog && showNewSceneDialog
    {
      showSaveConfirmDialog := false;
      showNewSceneDialog := true;
    }

    method HandleCancelSave()
      modifies this
      ensures !showSaveConfirmDialog && showNewSceneDialog == old(showNewSceneDialog)
    {
      showSaveConfirmDialog := false;
    }

    /**
     * Create a scene under a name no listed scene has, derived from the typed
     * name (trimmed, "new scene" when blank), then clear the selection and
     * close the naming dialog. `requested` is the name `createScene` receives;
     * `created` is whether it resolved, and when it rejected the selection and
     * the dialogs stay as they were.
     */
    method HandleCreateScene(name: string, scenes: seq<SceneListItem>, editor: EditorStore.Store, created: bool)
      returns (requested: string)
      modifies this, editor
      ensures UniqueName(requested, RequestedName(name), scenes)
      ensures created ==> editor.State() == old(editor.State()).(selectedIds := [], activeId := None)
      ensures created ==> !showNewSceneDialog
      ensures !created ==> editor.State() == old(editor.State()) && showNewSceneDialog == old(showNewSceneDialog)
      ensures showSaveConfirmDialog == old(showSaveConfirmDialog)
    {
      var typed := RequestedName(name);
      RequestedNameIdempotent(name);
      requested := GetUniqueSceneName(typed, scenes);
      if created {
        editor.ClearSelection();
        showNewSceneDialog := false;
      }
    }

    method HandleCancelCreate()
      modifies this
      ensures !showNewSceneDialog && showSaveConfirmDialog == old(showSaveConfirmDialog)
    {
      showNewSceneDialog := false;
    }
  }
}
