# Digital-twin scene editor: a verified model of its editing core

The editor keeps a 3D scene as a flat map from object id to object. Each object
records its parent id and an ordered list of child ids, under a distinguished
`root`. Two generations of the scene store exist (the client package's store and
the older top-level one). Both add, remove (with the whole subtree), reparent
(refusing cycles, inserting at an index), restore and patch objects, and keep
import-progress bookkeeping. The newer store also tracks a dirty flag and places
library assets.

Around the store sit:

- an undo/redo history of commands that can merge with the previous one;
- a delete command that snapshots subtrees so undo can restore them;
- material commands and the material-prop normaliser they use;
- the editor's selection and tool state;
- the layout and keyboard-input stores;
- keyboard shortcuts, from the platform-dependent key string through the
  registry and the dispatch decision to the action;
- the importer that turns an external scene file into the editor's format;
- the scene factory;
- unique scene naming and the new-scene dialog flow;
- the inspector's "common value" rule;
- the FBX import checks, name rewrites and metadata;
- the scene asset-reference checks;
- on the server, the request-body schemas and the upload file filter.

Code that changes state in place is modelled as classes with `modifies` clauses:
the stores, the commands, the history and the dialog flow. Loops are methods
with invariants. Pure helpers are functions with lemmas. Ids from `uuidv4` come
from a supply `uuid: nat -> string`, and each clock reading is a parameter: `now`, or `created` and `updated` where the source reads the clock twice.
Asynchronous outcomes (a save or a creation that succeeds or fails) and the
platform (`isMac`) are `bool` parameters.

## Model

| member | source | states |
|---|---|---|
| SceneStore.DefaultScene | packages/client/src/stores/sceneStore.ts:52-125 | the initial scene: a root group listing a main camera and a directional light, each parented to the root, with its two timestamps taken from the two clock readings |
| SceneStore.DefaultSceneIsTree | packages/client/src/stores/sceneStore.ts:52-125 | the initial scene is tree-consistent: parentless root, every other object listed once by its parent, children point back, no cycle |
| SceneStore.Store.constructor | packages/client/src/stores/sceneStore.ts:127-142 | the store starts with the default scene, idle import progress, no errors, clean and with no scene path |
| SceneStore.Store.AddObject | packages/client/src/stores/sceneStore.ts:144-171 | the object map becomes `Added` (defaults overlaid by the patch, under the given or generated id, pushed onto an existing parent's children); dirty; the tree stays consistent for a fresh id under an existing parent |
| SceneEdits.AddedShape | packages/client/src/stores/sceneStore.ts:146-167 | the added object carries the defaults overridden by every supplied field; the parent's children gain the id at the end; nothing else changes |
| SceneEdits.AddExistingIdDuplicatesChild | packages/client/src/stores/sceneStore.ts:163-167 | adding under an id the parent already lists puts that id in its children twice |
| SceneEdits.AddUnderMissingParentDangles | packages/client/src/stores/sceneStore.ts:151-165 | adding under a parent that does not exist leaves the object pointing at a missing parent, so the scene is no longer tree-consistent |
| SceneEdits.AddPreservesTree | packages/client/src/stores/sceneStore.ts:144-171 | adding a fresh id under an existing parent keeps the scene tree-consistent |
| SceneStore.Store.RemoveObject | packages/client/src/stores/sceneStore.ts:173-198 | removing the root or a missing id changes nothing; otherwise the id is dropped from its parent's children and exactly the objects reachable from it are deleted; tree consistency is preserved |
| SceneGraph.DeleteSubtree | packages/client/src/stores/sceneStore.ts:186-195 | `deleteRecursive`: the result holds exactly the objects not reachable from the target, unchanged |
| SceneEdits.Without | packages/client/src/stores/sceneStore.ts:183 | `filter(c => c !== id)`: the members of the list other than the id, still without duplicates |
| SceneEdits.RemovePreservesTree | packages/client/src/stores/sceneStore.ts:173-198 | deleting a non-root subtree after unlinking it from its parent keeps the scene tree-consistent |
| SceneStore.Store.UpdateTransform | packages/client/src/stores/sceneStore.ts:200-221 | an existing object's transform is merged with the patch, ignoring scale for the main camera; a missing id changes nothing |
| SceneStore.Store.ReparentObject | packages/client/src/stores/sceneStore.ts:223-252 | when object, old and new parent exist, the id is not the new parent and the new parent is not below the object, the object moves (inserted at a valid index, else appended); otherwise nothing changes; tree consistency is preserved |
| SceneGraph.AncestorWalkHits | packages/client/src/stores/sceneStore.ts:232-237 | the ancestor walk from the new parent meets the object exactly when the new parent lies in the object's subtree |
| SceneEdits.InsertAt | packages/client/src/stores/sceneStore.ts:243-247 | `splice` at a valid index puts the id there, otherwise it is appended; the members are the old ones plus the id |
| SceneEdits.InsertAbsentKeepsNoDup | packages/client/src/stores/sceneStore.ts:240-247 | inserting an id the list lacks keeps the list free of duplicates |
| SceneEdits.ReparentPreservesTree | packages/client/src/stores/sceneStore.ts:223-252 | a reparent that passes the guards and the cycle check keeps the scene tree-consistent |
| SceneStore.Store.UpdateComponent | packages/client/src/stores/sceneStore.ts:254-263 | the component record under the key becomes the old record overlaid with the data; a missing id changes nothing |
| SceneStore.Store.UpdateObject | packages/client/src/stores/sceneStore.ts:265-276 | `Object.assign`: every supplied field overrides the object's; a missing id changes nothing; patches that leave the tree fields alone keep consistency |
| SceneEdits.SameShapePreservesTree | packages/client/src/stores/sceneStore.ts:200-287 | an edit that leaves ids, parents and children untouched keeps the scene tree-consistent |
| SceneStore.Store.UpdateMeshMaterialSpec | packages/client/src/stores/sceneStore.ts:278-287 | an object with a mesh component gets the given material value written into it; otherwise nothing changes |
| SceneStore.Store.RestoreObject | packages/client/src/stores/sceneStore.ts:289-303 | the object is stored under its id and appended to its existing parent's children unless already listed |
| SceneEdits.RestoredShape | packages/client/src/stores/sceneStore.ts:289-303 | after a restore the object is present, its existing parent lists it exactly when it did or now must, and no other object changes |
| SceneStore.Store.LoadScene | packages/client/src/stores/sceneStore.ts:305-309 | the scene is replaced and the store is clean |
| SceneStore.StripExtension | packages/client/src/stores/sceneStore.ts:319 | `replace(/\.[^/.]+$/, '')`: a final extension with no dot or slash is dropped, otherwise the name is kept |
| SceneStore.StripExtensionOf | packages/client/src/stores/sceneStore.ts:319 | a base name followed by one such extension strips back to the base name |
| SceneStore.AssetAddedIsAdded | packages/client/src/stores/sceneStore.ts:318-346 | placing an asset is an `addObject` of its object under the root |
| SceneStore.Store.AddAssetToScene | packages/client/src/stores/sceneStore.ts:311-350 | a non-model asset throws the stated error and changes nothing; a model becomes a mesh under the root named without its extension, whose model path is the asset's file path |
| SceneStore.Store.MarkDirty | packages/client/src/stores/sceneStore.ts:353-356 | the store is dirty and nothing else changes |
| SceneStore.Store.MarkClean | packages/client/src/stores/sceneStore.ts:358-361 | the store is clean and nothing else changes |
| SceneStore.Store.SetScenePath | packages/client/src/stores/sceneStore.ts:363-366 | the scene path is set and nothing else changes |
| SceneStore.Store.SetImportProgress | packages/client/src/stores/sceneStore.ts:369-372 | progress is the old progress overlaid with the supplied fields |
| SceneStore.MergeProgressKeepsUnnamed | packages/client/src/stores/sceneStore.ts:371 | each progress field is the supplied value when present and the old value otherwise |
| SceneStore.Store.AddImportError | packages/client/src/stores/sceneStore.ts:374-377 | the error is appended and nothing else changes |
| SceneStore.Store.ClearImportState | packages/client/src/stores/sceneStore.ts:379-387 | progress is idle, the error list empty, the scene untouched |
| LegacySceneStore.DefaultScene | src/stores/sceneStore.ts:39-69 | the older store's initial scene is a lone parentless root, with its two timestamps taken from the two clock readings |
| LegacySceneStore.DefaultSceneIsTree | src/stores/sceneStore.ts:39-69 | that lone root is tree-consistent |
| LegacySceneStore.Store.constructor | src/stores/sceneStore.ts:70-82 | starts with that scene, idle progress and no errors |
| LegacySceneStore.Store.AddObject | src/stores/sceneStore.ts:83-110 | same object-map update as the newer store, without a dirty flag |
| LegacySceneStore.Store.RemoveObject | src/stores/sceneStore.ts:111-136 | same cascading removal; tree consistency preserved |
| LegacySceneStore.Store.UpdateTransform | src/stores/sceneStore.ts:137-145 | the transform is merged with the patch, with no main-camera exception |
| LegacySceneStore.Store.ReparentObject | src/stores/sceneStore.ts:146-175 | same guarded, cycle-checked move; tree consistency preserved |
| LegacySceneStore.Store.UpdateComponent | src/stores/sceneStore.ts:176-185 | same component merge |
| LegacySceneStore.Store.LoadScene | src/stores/sceneStore.ts:186-191 | the scene is replaced |
| LegacySceneStore.Store.SetImportProgress | src/stores/sceneStore.ts:192-196 | progress overlaid with the supplied fields |
| LegacySceneStore.Store.AddImportError | src/stores/sceneStore.ts:197-201 | the error is appended |
| LegacySceneStore.Store.ClearImportState | src/stores/sceneStore.ts:202-210 | progress idle and no errors |
| SceneEdits.ReparentLookupAsWritten | packages/client/src/stores/sceneStore.ts:225-229 | the opening lookups as ordered in the source: a missing object is an error (a thrown TypeError) |
| SceneEdits.ReparentOfMissingObjectThrows | packages/client/src/stores/sceneStore.ts:227 | reparenting an id the scene lacks throws as written, where the guards evidently meant a no-op |
| SceneEdits.ReparentLookupAgrees | packages/client/src/stores/sceneStore.ts:225-229 | for an existing object, the as-written and corrected lookups agree |
| DeleteObjects.DeleteObjectsCommand.constructor | packages/client/src/features/editor/commands/DeleteObjectsCommand.ts:11-13 | the command records the requested ids and no snapshots |
| DeleteObjects.CollectIds | packages/client/src/features/editor/commands/DeleteObjectsCommand.ts:22-30 | `collectIds`: extends the visited list without duplicates with the id and everything below it, keeping the visited set closed under children |
| DeleteObjects.Collect | packages/client/src/features/editor/commands/DeleteObjectsCommand.ts:19-36 | the collected ids are exactly the non-root requested ids and their descendants, without duplicates, never the root |
| DeleteObjects.TakeSnapshots | packages/client/src/features/editor/commands/DeleteObjectsCommand.ts:38-46 | one snapshot per collected object that exists, each equal to the stored object |
| DeleteObjects.RemoveSubtrees | packages/client/src/features/editor/commands/DeleteObjectsCommand.ts:55-63 | removing each non-root requested id leaves exactly the objects outside the doomed subtrees, still tree-consistent |
| DeleteObjects.DeleteObjectsCommand.Execute | packages/client/src/features/editor/commands/DeleteObjectsCommand.ts:15-67 | removes exactly the requested subtrees, snapshots them, keeps the tree consistent and clears the selection |
| DeleteObjects.DeleteObjectsCommand.Undo | packages/client/src/features/editor/commands/DeleteObjectsCommand.ts:69-86 | restores every snapshot and re-selects the requested ids; when the store still holds what the execute left, the result has the same ids as before the delete, each snapshot back exactly and every other object as it was up to the order of its children |
| Pruning.DeleteUndone | packages/client/src/features/editor/commands/DeleteObjectsCommand.ts:15-86 | undo after execute gives back the same set of ids, every snapshot exactly, and every object as it was except that its children may be reordered (the same multiset) |
| Pruning.RestoredAll | packages/client/src/features/editor/commands/DeleteObjectsCommand.ts:78-81 | restoring a list of snapshots adds exactly their ids |
| HistoryStore.AfterExecute | packages/client/src/stores/historyStore.ts:21-42 | the redo stack empties and the earlier history is kept; the undo stack grows by one exactly when the previous top does not absorb the command, and otherwise its top is the merge |
| HistoryStore.ExecuteThenUndo | packages/client/src/stores/historyStore.ts:21-55 | an undo right after an execute takes back exactly that edit: a pushed command moves alone to the redo stack, a merged one takes the edits it absorbed with it |
| HistoryStore.ExecuteThenRedo | packages/client/src/stores/historyStore.ts:21-68 | after an execute there is nothing to redo, and undoing it can be redone back to the same stacks |
| HistoryStore.AfterUndo | packages/client/src/stores/historyStore.ts:44-55 | with an empty undo stack nothing changes; otherwise the last command moves to the front of the redo stack |
| HistoryStore.AfterRedo | packages/client/src/stores/historyStore.ts:57-68 | with an empty redo stack nothing changes; otherwise the first redo command moves to the end of the undo stack |
| HistoryStore.UndoThenRedo | packages/client/src/stores/historyStore.ts:44-68 | redo after undo restores both stacks |
| HistoryStore.RedoThenUndo | packages/client/src/stores/historyStore.ts:44-68 | undo after redo restores both stacks |
| HistoryStore.UndoRedoKeepSize | packages/client/src/stores/historyStore.ts:44-68 | undo and redo never change the total number of stored commands |
| HistoryStore.UndosThenRedos | packages/client/src/stores/historyStore.ts:44-68 | k undos followed by k redos restore the stacks, for any k up to the undo depth |
| HistoryStore.History.constructor | packages/client/src/stores/historyStore.ts:18-19 | both stacks start empty |
| HistoryStore.History.Execute | packages/client/src/stores/historyStore.ts:21-42 | runs the command, then the stacks become `AfterExecute` |
| HistoryStore.History.Undo | packages/client/src/stores/historyStore.ts:44-55 | undoes the last command, if any, then the stacks become `AfterUndo` |
| HistoryStore.History.Redo | packages/client/src/stores/historyStore.ts:57-68 | re-runs the first redo command, if any, then the stacks become `AfterRedo` |
| HistoryStore.History.Clear | packages/client/src/stores/historyStore.ts:70 | both stacks empty |
| MaterialCommands.CurrentMaterial | packages/client/src/features/editor/commands/UpdateMaterialPropsCommand.ts:15-16 | the material value stored in an existing object's mesh component, undefined when there is no such object or component |
| MaterialCommands.Captured | packages/client/src/features/editor/commands/UpdateMaterialPropsCommand.ts:21 | a snapshot is kept exactly when the current material is truthy, whatever its shape, and it is that material |
| MaterialCommands.CurrentType | packages/client/src/features/editor/commands/UpdateMaterialPropsCommand.ts:18 | the stored type when it is a string, and `MeshStandardMaterial` when it is missing or null |
| MaterialCommands.CurrentProps | packages/client/src/features/editor/commands/UpdateMaterialPropsCommand.ts:19 | the stored props when they are an object, and no props when they are missing or null |
| MaterialCommands.CurrentOfEncoded | packages/client/src/features/editor/commands/UpdateMaterialPropsCommand.ts:18-21 | a well-formed material spec reads back through these defaults as its own type and props, and is captured |
| MaterialCommands.MaterialWriteUndone | packages/client/src/features/editor/commands/UpdateMaterialPropsCommand.ts:25-32 | writing any material and then writing back the truthy one read before restores the object |
| MaterialCommands.UpdateMaterialPropsCommand.constructor | packages/client/src/features/editor/commands/UpdateMaterialPropsCommand.ts:12-23 | `before` is the truthy current material of any shape; `after` keeps the current type (or the standard one) and has the current props overlaid with the new ones |
| MaterialCommands.UpdateMaterialPropsCommand.Execute | packages/client/src/features/editor/commands/UpdateMaterialPropsCommand.ts:25-27 | writes `after` into the mesh when there is one |
| MaterialCommands.UpdateMaterialPropsCommand.Undo | packages/client/src/features/editor/commands/UpdateMaterialPropsCommand.ts:29-32 | writes the captured `before` back when there was one, so the mesh holds it again, else changes nothing |
| MaterialCommands.UpdateMaterialPropsCommand.Merge | packages/client/src/features/editor/commands/UpdateMaterialPropsCommand.ts:34-41 | merges exactly a props update of the same object, taking its `after` and keeping its own `before` |
| MaterialCommands.ChangeMaterialTypeCommand.constructor | packages/client/src/features/editor/commands/ChangeMaterialTypeCommand.ts:13-24 | `before` is the truthy current material of any shape; `after` is the new type with the current props normalised for it, so every key is allowed for that type |
| MaterialCommands.ChangeMaterialTypeCommand.Execute | packages/client/src/features/editor/commands/ChangeMaterialTypeCommand.ts:26-28 | writes `after` into the mesh when there is one |
| MaterialCommands.ChangeMaterialTypeCommand.Undo | packages/client/src/features/editor/commands/ChangeMaterialTypeCommand.ts:30-33 | writes the captured `before` back when there was one, so the mesh holds it again, else changes nothing |
| NormalizeMaterial.NormalizeWith | packages/client/src/features/materials/normalizeMaterialProps.ts:58-74 | the two loops produce exactly the allowed old keys plus the default keys, old values winning over defaults |
| NormalizeMaterial.NormalizeMaterialProps | packages/client/src/features/materials/normalizeMaterialProps.ts:54-75 | the result is `Normalized(old, type)`, and all its keys are allowed for the type |
| NormalizeMaterial.DefaultsAreAllowed | packages/client/src/features/materials/normalizeMaterialProps.ts:15-52 | each type's defaults use only its allowed keys |
| NormalizeMaterial.NormalizedKeepsValues | packages/client/src/features/materials/normalizeMaterialProps.ts:61-65 | an allowed key with a defined old value keeps that value |
| NormalizeMaterial.NormalizedFillsDefaults | packages/client/src/features/materials/normalizeMaterialProps.ts:67-72 | a default key is always present, with the default exactly when the old value is missing |
| NormalizeMaterial.NormalizedIdempotent | packages/client/src/features/materials/normalizeMaterialProps.ts:54-75 | normalising twice for the same type changes nothing |
| NormalizeMaterial.NormalizedToCommon | packages/client/src/features/materials/normalizeMaterialProps.ts:3-31 | basic and Lambert materials keep exactly the common keys, unchanged |
| NormalizeMaterial.TypeNameInjective | packages/client/src/features/materials/normalizeMaterialProps.ts:15-31 | distinct material types have distinct names |
| Selection.Selected | packages/client/src/stores/editorStore.ts:112-122 | without append the selection is the ids; with append it holds the old and new ids, each once |
| Selection.ActiveOf | packages/client/src/stores/editorStore.ts:112-131 | the active id is the last selected id, none for an empty selection |
| Selection.Dedup | packages/client/src/stores/editorStore.ts:114-116 | `[...new Set(...)]`: the same members, each once |
| Selection.SelectAppend | packages/client/src/stores/editorStore.ts:112-122 | appending keeps the old selection as a prefix and adds only new ids after it |
| Selection.DedupIsFirstOccurrences | packages/client/src/stores/editorStore.ts:114-116 | deduplication keeps each id at its first occurrence |
| Selection.Remove | packages/client/src/stores/editorStore.ts:124-131 | deselection keeps exactly the ids not removed |
| Selection.RemoveConcat | packages/client/src/stores/editorStore.ts:124-131 | deselecting distributes over concatenation, so order is kept |
| EditorStore.InitialStateActiveIsLast | packages/client/src/stores/editorStore.ts:63-89 | the initial state has no selection and satisfies the active-is-last invariant |
| EditorStore.Store.constructor | packages/client/src/stores/editorStore.ts:63-89 | the editor starts in the initial state |
| EditorStore.Store.SetMode | packages/client/src/stores/editorStore.ts:91 | only the mode changes |
| EditorStore.Store.SetRenderMode | packages/client/src/stores/editorStore.ts:92 | only the render mode changes |
| EditorStore.Store.SetActiveTool | packages/client/src/stores/editorStore.ts:95 | only the active tool changes |
| EditorStore.Store.SetCursorMode | packages/client/src/stores/editorStore.ts:97 | only the cursor mode changes |
| EditorStore.Store.SetModifiers | packages/client/src/stores/editorStore.ts:99-102 | the modifiers become the old ones overlaid with the supplied flags |
| ShortcutTypes.MergeModifiersLaws | packages/client/src/stores/editorStore.ts:99-102 | overlaying the same flags twice is overlaying them once; a full set of flags replaces the old ones |
| EditorStore.Store.SetNavigationMode | packages/client/src/stores/editorStore.ts:104 | only the navigation mode changes |
| EditorStore.Store.SetViewMode | packages/client/src/stores/editorStore.ts:106 | only the view mode changes |
| EditorStore.Store.SetRenamingId | packages/client/src/stores/editorStore.ts:108 | only the renaming id changes |
| EditorStore.Store.SetDeleteConfirmation | packages/client/src/stores/editorStore.ts:110 | only the delete-confirmation flag changes |
| EditorStore.Store.Select | packages/client/src/stores/editorStore.ts:112-122 | selection replaced or extended, the active id is its last element |
| EditorStore.Store.Deselect | packages/client/src/stores/editorStore.ts:124-131 | the ids are removed and the active id is the last one remaining |
| EditorStore.Store.ClearSelection | packages/client/src/stores/editorStore.ts:133-134 | no selection and no active id |
| EditorStore.Store.SetCamera | packages/client/src/stores/editorStore.ts:136-139 | the camera becomes the old one overlaid with the supplied fields |
| EditorTypes.MergeCameraIdempotent | packages/client/src/stores/editorStore.ts:136-139 | applying a camera patch twice equals applying it once; the empty patch changes nothing |
| LegacyEditorStore.Store.constructor | src/stores/editorStore.ts:34-48 | the older editor starts with no selection |
| LegacyEditorStore.Store.SetMode | src/stores/editorStore.ts:49 | only the mode changes |
| LegacyEditorStore.Store.SetRenderMode | src/stores/editorStore.ts:50 | only the render mode changes |
| LegacyEditorStore.Store.Select | src/stores/editorStore.ts:52-62 | same selection rule as the newer store |
| LegacyEditorStore.Store.Deselect | src/stores/editorStore.ts:64-71 | same deselection rule |
| LegacyEditorStore.Store.ClearSelection | src/stores/editorStore.ts:73-74 | no selection and no active id |
| LegacyEditorStore.Store.SetCamera | src/stores/editorStore.ts:76-79 | camera overlaid with the supplied fields |
| SceneFormatConverter.MapObjectType | packages/client/src/features/scene/services/SceneFormatConverter.ts:126-138 | upper-cased type names: LIGHT, CAMERA, GROUP (or none) map to their kinds, anything else to a mesh |
| SceneFormatConverter.MapObjectTypeIgnoresCase | packages/client/src/features/scene/services/SceneFormatConverter.ts:126-138 | the mapping ignores letter case |
| SceneFormatConverter.ExtractRotation | packages/client/src/features/scene/services/SceneFormatConverter.ts:143-154 | the first three entries of a rotation with at least three, else zero |
| SceneFormatConverter.ConvertComponents | packages/client/src/features/scene/services/SceneFormatConverter.ts:159-180 | a model component exactly when file info is given, metadata exactly when other user data is, nothing when neither |
| SceneFormatConverter.ConvertSettings | packages/client/src/features/scene/services/SceneFormatConverter.ts:185-193 | grid visible; non-empty viewer background and environment are taken, the defaults otherwise |
| SceneFormatConverter.ConvertedDefaults | packages/client/src/features/scene/services/SceneFormatConverter.ts:87-121 | an object with no fields becomes a visible, unlocked, unnamed mesh at the identity transform |
| SceneFormatConverter.ConvertedKeepsGiven | packages/client/src/features/scene/services/SceneFormatConverter.ts:87-121 | given name, visibility, position, rotation and scale are carried over |
| SceneFormatConverter.ConvertObjectRecursive | packages/client/src/features/scene/services/SceneFormatConverter.ts:87-121 | the object takes the next id and the output gains its flattened subtree, drawing one id per object |
| SceneFormatConverter.ConvertObjects | packages/client/src/features/scene/services/SceneFormatConverter.ts:53-82 | the output is the root plus all flattened top-level subtrees |
| SceneFormatConverter.ConvertedTree | packages/client/src/features/scene/services/SceneFormatConverter.ts:53-121 | with distinct fresh ids the converted objects form a consistent tree under the root, one entry per external object plus the root |
| SceneFormatConverter.ExtractAssets | packages/client/src/features/scene/services/SceneFormatConverter.ts:198-222 | one model asset per object with a URL, under fresh ids |
| SceneFormatConverter.AssetCount | packages/client/src/features/scene/services/SceneFormatConverter.ts:198-222 | the asset count equals the number of objects with a URL |
| SceneFormatConverter.Convert | packages/client/src/features/scene/services/SceneFormatConverter.ts:21-48 | the whole conversion: fresh scene id, defaulted name, the two clock readings as creation and update times, consistent tree under `root`, converted settings, one asset per URL, no materials |
| SceneManager.CreateNewScene | src/features/scene/services/SceneManager.ts:16-94 | a new scene under a fresh id, named as given or 'New Scene', with no assets and default settings |
| SceneManager.NewSceneContents | src/features/scene/services/SceneManager.ts:16-94 | the new scene holds exactly the root, one camera and one light, listed in that order |
| SceneManager.NewSceneIsTree | src/features/scene/services/SceneManager.ts:16-94 | the new scene is tree-consistent |
| SceneManager.CreateMesh | src/features/scene/services/SceneManager.ts:133-158 | an unparented mesh at the identity whose mesh component names the geometry (box by default) and casts and receives shadows |
| SceneManager.GeometryNameInjective | src/features/scene/services/SceneManager.ts:133 | distinct geometries have distinct names |
| SceneNames.RequestedName | packages/client/src/utils/sceneNameUtils.ts:20-21 | the trimmed name, or the default when it is blank; never empty |
| SceneNames.RequestedNameIdempotent | packages/client/src/hooks/useNewSceneFlow.ts:61-62 | trimming an already requested name gives it back, so the flow's own trim changes nothing |
| SceneNames.SuffixedInjective | packages/client/src/utils/sceneNameUtils.ts:32-36 | different counters give different suffixed names |
| SceneNames.GetUniqueSceneName | packages/client/src/utils/sceneNameUtils.ts:15-37 | the result is not an existing name; it is the request itself when free, else the request with the smallest free counter, which is at most the number of existing scenes |
| SceneNames.FirstFreeCounter | packages/client/src/utils/sceneNameUtils.ts:30-34 | the counter loop stops at the first free suffix, within the number of names |
| NewSceneFlow.Flow.constructor | packages/client/src/hooks/useNewSceneFlow.ts:19-20 | both dialogs start closed |
| NewSceneFlow.Flow.HandleNewSceneClick | packages/client/src/hooks/useNewSceneFlow.ts:30-36 | a dirty scene opens the save confirmation, a clean one the naming dialog |
| NewSceneFlow.Flow.HandleSaveAndProceed | packages/client/src/hooks/useNewSceneFlow.ts:38-48 | after a successful save the scene is clean and the naming dialog replaces the confirmation; a failed save changes nothing |
| NewSceneFlow.Flow.HandleDiscardAndProceed | packages/client/src/hooks/useNewSceneFlow.ts:50-53 | the confirmation closes and the naming dialog opens |
| NewSceneFlow.Flow.HandleCancelSave | packages/client/src/hooks/useNewSceneFlow.ts:55-57 | the confirmation closes |
| NewSceneFlow.Flow.HandleCreateScene | packages/client/src/hooks/useNewSceneFlow.ts:59-70 | the requested name is unique among the project's scenes; on success the selection is cleared and the dialog closes; on failure nothing changes |
| NewSceneFlow.Flow.HandleCancelCreate | packages/client/src/hooks/useNewSceneFlow.ts:72-74 | the naming dialog closes |
| Inspector.GetCommonValue | src/components/inspector/utils/inspectorUtils.ts:3-15 | a common value exactly when the list is non-empty and every entry agrees with the first (numbers within 0.0001, others equal); that value is the first entry |
| Inspector.AgreesReflexiveSymmetric | src/components/inspector/utils/inspectorUtils.ts:8-12 | agreement is reflexive and symmetric |
| Inspector.AgreesNotTransitive | src/components/inspector/utils/inspectorUtils.ts:9 | agreement is not transitive, so the result depends on which entry is first |
| LayoutStore.Clamp | packages/client/src/stores/layoutStore.ts:36-38 | `max(lo, min(x, hi))`: within the bounds, the identity inside them, the nearer bound outside |
| LayoutStore.ClampIdempotentMonotone | packages/client/src/stores/layoutStore.ts:36-38 | clamping twice is clamping once, and clamping keeps order |
| LayoutStore.InitialLayoutInBounds | packages/client/src/stores/layoutStore.ts:21-29 | the initial sizes lie within their bounds |
| LayoutStore.Store.constructor | packages/client/src/stores/layoutStore.ts:21-29 | panels visible, widths 256 and 320, height 256, dark theme |
| LayoutStore.Store.ToggleSidebarLeft | packages/client/src/stores/layoutStore.ts:32 | only the left sidebar's visibility flips |
| LayoutStore.Store.ToggleSidebarRight | packages/client/src/stores/layoutStore.ts:33 | only the right sidebar's visibility flips |
| LayoutStore.Store.ToggleBottomPanel | packages/client/src/stores/layoutStore.ts:34 | only the bottom panel's visibility flips |
| LayoutStore.Store.SetSidebarLeftWidth | packages/client/src/stores/layoutStore.ts:36 | the width is clamped to 200..500; sizes stay in bounds |
| LayoutStore.Store.SetSidebarRightWidth | packages/client/src/stores/layoutStore.ts:37 | the width is clamped to 240..600 |
| LayoutStore.Store.SetBottomPanelHeight | packages/client/src/stores/layoutStore.ts:38 | the height is clamped to 100..800 |
| LayoutStore.ToggleTwiceSetTwice | packages/client/src/stores/layoutStore.ts:32-36 | toggling twice restores visibility; setting the same width twice equals setting it once |
| InputState.Store.constructor | src/features/editor/navigation/useInputState.ts:14 | no key is recorded |
| InputState.Store.SetKey | src/features/editor/navigation/useInputState.ts:15-24 | the key's state is recorded; the state is replaced exactly when it changes; no other key changes |
| InputState.Store.ResetKeys | src/features/editor/navigation/useInputState.ts:25 | no key is pressed |
| InputState.PressRelease | src/features/editor/navigation/useInputState.ts:15-24 | pressing then releasing a key leaves it released and the other keys as they were |
| Platform.GetModifierKey | src/utils/platform.ts:18-20 | the command key on a Mac, the control key elsewhere |
| Platform.GetModifiers | src/utils/platform.ts:77-81 | ctrl is the platform modifier; shift and alt are read as they are |
| Platform.BuildShortcutKey | src/utils/platform.ts:62-72 | the key is `Ctrl+`, `Shift+`, `Alt+` for the pressed modifiers, in that order, followed by the code; one `+` per modifier |
| Platform.ShortcutKeyInjective | src/utils/platform.ts:62-72 | for codes without `+`, different modifier sets or codes give different keys |
| Platform.GetShortcutLabel | src/utils/platform.ts:40-56 | off a Mac the label is the shortcut with every `Key` prefix of a capital letter removed |
| Platform.LetterLabelOffMac | src/utils/platform.ts:48-53 | off a Mac, modifiers stay spelled out and `KeyX` becomes `X` |
| Platform.CtrlLetterLabelOnMac | src/utils/platform.ts:40-47 | on a Mac, `Ctrl+KeyD` shows as `⌘D` |
| Platform.StripKeyPrefixSkips | src/utils/platform.ts:53 | text without a `Key` match passes through the rewrite unchanged |
| ShortcutRegistry.Lookup | src/features/editor/shortcuts/shortcutRegistry.ts:3-26 | an entry exactly for the registered keys, equal to the registered action |
| ShortcutRegistry.ToolKeys | src/features/editor/shortcuts/shortcutRegistry.ts:5-9 | Q, W, E, R, Y select hand, translate, rotate, scale, universal at priority 1; only E is disabled in 2D |
| ShortcutRegistry.ToolEntries | src/features/editor/shortcuts/shortcutRegistry.ts:3-26 | exactly the tool-switch entries carry a tool parameter |
| ShortcutRegistry.OnlyRotateDisabledIn2D | src/features/editor/shortcuts/shortcutRegistry.ts:7 | `KeyE` is the only entry disabled in 2D |
| ShortcutRegistry.FunctionKeys | src/features/editor/shortcuts/shortcutRegistry.ts:12-14 | F, F2 and Delete are priority 2 and need a selection |
| ShortcutRegistry.Decomposition | src/features/editor/shortcuts/shortcutRegistry.ts:3-26 | every registered key is what the key builder produces for some modifiers and code, at priority 2 plus the modifier count for combinations |
| ShortcutRegistry.CombinationPriorities | src/features/editor/shortcuts/shortcutRegistry.ts:16-25 | a key's priority is its number of `+` plus 2 for combinations, 1 or 2 otherwise |
| ShortcutRegistry.KeysInBuilderOrder | src/features/editor/shortcuts/shortcutRegistry.ts:3-26 | every registered key is reachable from a key event |
| KeyboardShortcutManager.Decide | src/features/editor/shortcuts/KeyboardShortcutManager.tsx:19-49 | an action runs exactly when no text field has focus, the key is registered, a needed selection exists and a 2D-disabled action is not in 2D; the action is the registered one |
| KeyboardShortcutManager.RotateKeyOnlyIn3D | src/features/editor/shortcuts/KeyboardShortcutManager.tsx:41-43 | E does nothing in 2D and selects the rotate tool in 3D |
| KeyboardShortcutManager.NothingSelected | src/features/editor/shortcuts/KeyboardShortcutManager.tsx:37-39 | with nothing selected, only actions that need no selection run |
| KeyboardShortcutManager.DecidedToolsHaveParams | src/features/editor/shortcuts/KeyboardShortcutManager.tsx:31-49 | every tool switch that runs names its tool |
| KeyboardShortcutManager.HandleKeyDown | src/features/editor/shortcuts/KeyboardShortcutManager.tsx:19-49 | builds the key, decides, and either leaves the editor as it was or applies the dispatched action |
| ExecuteShortcut.Dispatched | src/features/editor/shortcuts/executeShortcut.ts:9-76 | a tool switch changes only the tool; select-all selects every object id; rename sets the renaming id to a non-empty active id; every other action changes nothing |
| ExecuteShortcut.DispatchedKeepsActiveLast | src/features/editor/shortcuts/executeShortcut.ts:9-76 | dispatching keeps the active id equal to the last selected id |
| ExecuteShortcut.SelectAllSelectsEverything | src/features/editor/shortcuts/executeShortcut.ts:17-22 | after select-all every object is selected once and one is active |
| ExecuteShortcut.Execute | src/features/editor/shortcuts/executeShortcut.ts:9-76 | the editor state becomes `Dispatched` of the old state |
| Wireframe.ResolveWireframeOverride | packages/client/src/features/scene/SceneRenderer.tsx:12-15 | wireframe mode forces true; otherwise the material's own flag, false when absent |
| Wireframe.OverrideIff | packages/client/src/features/scene/SceneRenderer.tsx:12-15 | for boolean flags, the result is true exactly in wireframe mode or when the material asks for it |
| FbxImporter.ValidateFile | packages/client/src/features/fbx/FBXImporter.ts:25-36 | accepted exactly for a `.fbx` name of 1 byte up to 500 MiB; otherwise the first failing check's error |
| FbxImporter.ValidateIgnoresCase | packages/client/src/features/fbx/FBXImporter.ts:26 | the extension check ignores letter case |
| FbxImporter.LimitIsInclusive | packages/client/src/features/fbx/FBXImporter.ts:6-32 | exactly 500 MiB passes and one byte more does not |
| FbxImporter.ConvertedName | packages/client/src/features/fbx/FBXImporter.ts:90-91 | a final `.fbx` is replaced by `.glb` or `.gltf` |
| FbxImporter.ConvertedNameIsNotFbx | packages/client/src/features/fbx/FBXImporter.ts:90-91 | the converted name ends in the chosen extension and is no longer accepted as FBX |
| FbxImporter.SourceMetadata | packages/client/src/features/fbx/FBXImporter.ts:80-86 | the original's metadata marks it as the source FBX |
| FbxImporter.ConvertedMetadata | packages/client/src/features/fbx/FBXImporter.ts:97-103 | the converted model's metadata names its format, its source FBX and the settings |
| FbxImporter.ReimportMetadata | packages/client/src/features/fbx/FBXImporter.ts:124-180 | reimport fails exactly without a truthy source id; otherwise every key is kept and the settings and format are overwritten |
| FbxImporter.ImportThenReimport | packages/client/src/features/fbx/FBXImporter.ts:97-180 | a converted model can be reimported and keeps its source id |
| FbxImporter.SourceIsNotReimportable | packages/client/src/features/fbx/FBXImporter.ts:80-129 | the source FBX itself cannot be reimported |
| FbxImporter.ReimportedName | packages/client/src/features/fbx/FBXImporter.ts:154-155 | a final `.glb` or `.gltf` is replaced by the new extension, other names kept; empty only for an empty name |
| FbxImporter.ReimportRenamesLikeImport | packages/client/src/features/fbx/FBXImporter.ts:90-155 | renaming a converted name for another format gives the name import would have chosen |
| AssetIntegration.CollectUsedAssets | packages/client/src/services/SceneAssetIntegration.ts:126-150 | the models are the truthy database ids of model references, the materials those of material references, no textures |
| AssetIntegration.ValidateSceneAssets | packages/client/src/services/SceneAssetIntegration.ts:155-186 | the unknown truthy references, assets first then materials, in order; valid exactly when there is none |
| AssetIntegration.MissingOf | packages/client/src/services/SceneAssetIntegration.ts:164-181 | an entry exactly for each referenced id the known list lacks; none exactly when all are known |
| AssetIntegration.ValidIffAllKnown | packages/client/src/services/SceneAssetIntegration.ts:155-186 | a scene is valid exactly when every truthy asset and material reference is known |
| ServerValidation.ParseRegister | packages/server/src/utils/validation.ts:4-11 | accepted exactly for a 3-50 character word username, a password of 6 or more characters, and a missing or well-formed e-mail; the result holds the username, the password and the e-mail given |
| ServerValidation.RegisterUsernameRule | packages/server/src/utils/validation.ts:5-8 | with a valid password, a username is accepted exactly when it has 3-50 characters from `[A-Za-z0-9_]` |
| ServerValidation.EmailOptional | packages/server/src/utils/validation.ts:10 | dropping the e-mail from an accepted registration keeps it accepted |
| ServerValidation.ParseLogin | packages/server/src/utils/validation.ts:14-18 | accepted exactly for a non-empty username and password and a missing or boolean `rememberMe`; the result holds the given username, password and `rememberMe` |
| ServerValidation.ParseProject | packages/server/src/utils/validation.ts:21-32 | a 1-100 character name, required on creation and optional on update; optional string description and thumbnail; the result holds exactly the given name, description and thumbnail |
| ServerValidation.ParseScene | packages/server/src/utils/validation.ts:35-44 | a 1-100 character name, required on creation and optional on update; any `data`; the result holds exactly the given name and `data` |
| ServerValidation.EmptyUpdateAccepted | packages/server/src/utils/validation.ts:28-44 | the empty object is a valid update |
| ServerValidation.CreateIsUpdate | packages/server/src/utils/validation.ts:21-44 | a valid creation body is a valid update body with the same fields |
| ServerValidation.NamedUpdateCreates | packages/server/src/utils/validation.ts:21-32 | a valid update that names the project is a valid creation |
| ServerValidation.NameBounds | packages/server/src/utils/validation.ts:36 | a scene name is accepted exactly when it has 1 to 100 characters |
| UploadFilter.AfterLastDot | packages/server/src/middleware/upload.ts:30 | the text after the last dot (no dot in it, a suffix of the name, preceded by a dot unless it is the whole name) |
| UploadFilter.AfterLastDotOf | packages/server/src/middleware/upload.ts:30 | `stem.ext` yields `ext` |
| UploadFilter.NoDotIsWholeName | packages/server/src/middleware/upload.ts:30 | a name without a dot yields the whole name |
| UploadFilter.FileFilter | packages/server/src/middleware/upload.ts:12-41 | accepted exactly for an allowed MIME type or a non-empty allowed extension; otherwise the error names type and file |
| UploadFilter.MimeTypeSuffices | packages/server/src/middleware/upload.ts:34-35 | an allowed MIME type is accepted whatever the name |
| UploadFilter.ExtensionDecides | packages/server/src/middleware/upload.ts:30-36 | for `stem.ext`, accepted exactly when the lower-cased extension or the MIME type is allowed |
| UploadFilter.ExtensionCaseInsensitive | packages/server/src/middleware/upload.ts:30 | the extension's letter case does not matter |
| UploadFilter.TrailingDotNeedsMimeType | packages/server/src/middleware/upload.ts:30-36 | a name ending in a dot passes only through its MIME type |
| UploadFilter.UpperCaseFbxAccepted | packages/server/src/middleware/upload.ts:30-38 | `model.FBX` sent as plain text is accepted |
| UploadFilter.TextFileRefused | packages/server/src/middleware/upload.ts:34-41 | `notes.txt` sent as plain text is refused |

## Left out

- JavaScript's `toLowerCase`/`toUpperCase` and `trim` are modelled on ASCII letters and the usual white-space characters. Unicode case mapping is not modelled.
- String lengths count Unicode scalar values. JavaScript counts UTF-16 code units, so names with characters outside the Basic Multilingual Plane are measured differently.
- Numbers are unbounded reals. NaN, infinities and floating-point rounding (in the inspector's 0.0001 tolerance and the light's degree-to-radian factor) are not modelled. The factor `Math.PI / 180` is a parameter.
- Inspector.GetCommonValue: the `'---'` sentinel is a separate constructor, so a string field whose values are all `'---'` cannot be confused with a mixed result as it can in the source.
- `uuidv4` is a supply of ids, and the converter and the stores require the ids they draw to be distinct, non-empty and never `root`. Each clock reading is a parameter and is not constrained; where the source reads the clock twice for one scene (the two default scenes and the converter), the model takes two readings.
- SceneStore.Store.RemoveObject and LegacySceneStore.Store.RemoveObject require an acyclic object graph. On a cyclic graph the source recurses without end.
- SceneStore.Store.ReparentObject and LegacySceneStore.Store.ReparentObject require a tree-consistent scene. On other graphs the source's ancestor walk may not end or may read a missing object.
- DeleteObjects.DeleteObjectsCommand.Execute requires a tree-consistent scene, for the same reason.
- The closure-captured `selectedIds` and `viewMode` of the keyboard manager are read from the editor store when the key is handled.
- `Object.keys` and `Object.values` orders are parameters: lists that hold each key exactly once.
- `preventDefault`, the `keydown` listener's registration and removal, `console` output and `alert` are not modelled.
- The actions that only log a warning are modelled as leaving the state unchanged: focus, follow, delete, immediate delete, duplicate, undo, redo and reset-transform.
- ExecuteShortcut.Dispatched requires a tool-switch action to carry its tool, as every registry entry does. The source would store `undefined` as the tool otherwise.
- FbxImporter.ValidateFile: the size in the too-large message is the size in bytes. The source's rounding with `toFixed(0)` to megabytes is not modelled.
- The FBX import and reimport pipelines are not modelled: uploads, downloads, the conversion worker and its timeout, and progress reports. Only their checks, name rewrites and metadata are.
- The scene stores' persistence, the project store, the asset store's fetching, `saveSceneToFile` and every server route, service and model are not part of this model.
- The e-mail format check belongs to the validation library and is the parameter `isEmail`. The upload size limit and memory storage belong to the upload library.
- The server validators yield only the listed fields, as object schemas strip unknown keys. The library's error messages are not modelled.
- The command objects keep their snapshots by value. Aliasing between a snapshot and the live scene object, which the source's structured clone avoids, does not arise.
- AssetIntegration.CollectUsedAssets: the texture set is always empty, as in the source.
- MaterialCommands.CurrentType: a stored `type` that is present but neither a string nor null reads as `MeshStandardMaterial`. The source would copy that value into `after`, which its material type forbids.
- MaterialCommands.CurrentProps: stored `props` that are a string or an array read as no props. The source's spread would copy their indices as keys.
- MaterialCommands.Captured: the `JSON.parse(JSON.stringify(...))` copy is the value itself. The JSON round trip's dropping of `undefined` fields is not modelled.

## Findings

| source | as written | input that shows it | evidently intended | confidence | as-written member | corrected member |
|---|---|---|---|---|---|---|
| packages/client/src/stores/sceneStore.ts:227 (and src/stores/sceneStore.ts:150) | `obj.parentId` is read before `!obj` is checked, so reparenting a missing id throws a TypeError | `reparentObject('missing', 'root')` on a scene without `missing` | a missing object is a silent no-op, as the guard on the next line intends | high, not executed | SceneEdits.ReparentLookupAsWritten (counterexample SceneEdits.ReparentOfMissingObjectThrows) | SceneEdits.ReparentLookup (agreement SceneEdits.ReparentLookupAgrees; used by SceneStore.Store.ReparentObject) |
