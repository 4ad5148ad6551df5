/**
 * The client's scene store: the scene being edited, the import bookkeeping,
 * the unsaved-changes flag and the path the scene was last saved to. Every
 * action edits these fields in place. Each action that changes the scene also
 * stamps `updatedAt` with the current time, which is a parameter here, as is
 * the id `uuid()` would return.
 */
module SceneStore {
  import opened Wrappers
  import opened Seqs
  import opened Values
  import opened SceneModel
  import opened SceneGraph
  import opened SceneEdits

  // ---------------------------------------------------------------------------
  // The default scene
  // ---------------------------------------------------------------------------

  function MainCameraObject(): SceneObject {
    SceneObject("camera-1", "Main Camera", Camera, Some("root"), [], true, false,
      Transform(Vec3(0.0, 1.0, -10.0), Origin, UnitScale),
      Some(map["camera" := Obj(map["fov" := Num(60.0), "near" := Num(0.1), "far" := Num(1000.0),
                                    "orthographic" := Bool(false)])]))
  }

  /** The directional light; its rotation (50° and -30° in radians) is a parameter. */
  function DirectionalLightObject(rotation: Vec3): SceneObject {
    SceneObject("light-1", "Directional Light", Light, Some("root"), [], true, false,
      Transform(Vec3(0.0, 3.0, 0.0), rotation, UnitScale),
      Some(map["light" := Obj(map["color" := Str("#ffffff"), "intensity" := Num(1.0),
                                   "type" := Str("directional"), "castShadow" := Bool(true)])]))
  }

  function DefaultObjects(lightRotation: Vec3): Objects {
    map[
      "root" := SceneObject("root", "Root", Group, None, ["camera-1", "light-1"], true, true, IdentityTransform, None),
      "camera-1" := MainCameraObject(),
      "light-1" := DirectionalLightObject(lightRotation)]
  }

  /**
   * The scene a fresh store holds: a locked root group listing the main
   * camera and one light; `created` and `updated` are the two clock readings.
   */
  function DefaultScene(created: string, updated: string, lightRotation: Vec3): (s: Scene)
    ensures s.root == "root" && s.objects.Keys == {"root", "camera-1", "light-1"}
    ensures s.objects["root"].children == ["camera-1", "light-1"]
    ensures IsMainCamera(s.objects["camera-1"]) && s.objects["camera-1"].transform.scale == UnitScale
    ensures s.assets == map[] && s.settings == DefaultSettings
    ensures s.createdAt == created && s.updatedAt == updated
  {
    Scene("default-scene", "New Scene", "1.0.0", created, updated, "root", DefaultObjects(lightRotation), map[], None, DefaultSettings)
  }

  /** The default scene is a consistent tree. */
  lemma DefaultSceneIsTree(lightRotation: Vec3)
    ensures TreeConsistent(DefaultObjects(lightRotation), "root")
  {
    var objs := DefaultObjects(lightRotation);
    var rank := map["root" := 0, "camera-1" := 1, "light-1" := 1];
    assert Ranked(objs, rank);
    assert ListedByParent(objs, "camera-1") && ListedByParent(objs, "light-1");
  }

  // ---------------------------------------------------------------------------
  // addAssetToScene
  // ---------------------------------------------------------------------------

  /** The fields of a library asset the scene store reads. */
  datatype Asset = Asset(name: string, kind: string, filePath: string)

  const NotAModel := "Only model assets can be added to scene"

  /** `j` starts a match of `/\.[^/.]+$/` in `name`: a dot followed by at least one character, none a dot or a slash. */
  predicate ExtensionAt(name: string, j: int) {
    0 <= j < |name| - 1 && name[j] == '.'
    && forall k :: j < k < |name| ==> name[k] != '.' && name[k] != '/'
  }

  /** Index of the last '.' in `s`, or -1 when there is none. */
  function LastDot(s: string): (r: int)
    ensures -1 <= r < |s|
    ensures r >= 0 ==> s[r] == '.'
    ensures forall k :: r < k < |s| ==> s[k] != '.'
  {
    if s == [] then -1
    else if s[|s| - 1] == '.' then |s| - 1
    else LastDot(s[..|s| - 1])
  }

  /** `name.replace(/\.[^/.]+$/, '')`: the name without its final extension, if it has one. */
  function StripExtension(name: string): (r: string)
    ensures forall j :: ExtensionAt(name, j) ==> r == name[..j]
    ensures (forall j :: !ExtensionAt(name, j)) ==> r == name
  {
    var j := LastDot(name);
    if j >= 0 && j + 1 < |name| && (forall k :: j < k < |name| ==> name[k] != '/') then
      assert ExtensionAt(name, j);
      name[..j]
    else
      assert forall i :: !ExtensionAt(name, i);
      name
  }

  /** A base name with one extension appended loses exactly that extension. */
  lemma StripExtensionOf(base: string, ext: string)
    requires ext != [] && '.' !in ext && '/' !in ext
    ensures StripExtension(base + "." + ext) == base
  {
    var name := base + "." + ext;
    forall k | |base| < k < |name| ensures name[k] != '.' && name[k] != '/' {
      assert name[k] == ext[k - |base| - 1];
    }
    assert ExtensionAt(name, |base|);
    assert name[..|base|] == base;
  }

  /** The object `addAssetToScene` places under the root. */
  function AssetObject(asset: Asset, id: string, root: string): (o: SceneObject)
    ensures o.id == id && o.kind == Mesh && o.parentId == Some(root) && o.children == []
    ensures o.name == StripExtension(asset.name) && o.transform == IdentityTransform
    ensures o.components == Some(map["model" := Obj(map["path" := Str(asset.filePath)])])
  {
    SceneObject(id, StripExtension(asset.name), Mesh, Some(root), [], true, false, IdentityTransform,
      Some(map["model" := Obj(map["path" := Str(asset.filePath)])]))
  }

  /** The same object, described as the fields a caller of `addObject` would pass. */
  function AssetPatch(asset: Asset, root: string): ObjectPatch {
    EmptyPatch.(name := Some(StripExtension(asset.name)),
                components := Some(map["model" := Obj(map["path" := Str(asset.filePath)])]))
  }

  /** Placing an asset is adding its object under the root, so everything proved of `Added` applies. */
  lemma AssetAddedIsAdded(objs: Objects, asset: Asset, root: string, generated: string)
    requires root != ""
    ensures var m := objs[generated := AssetObject(asset, generated, root)];
      (if root in m then m[root := m[root].(children := m[root].children + [generated])] else m)
      == Added(objs, AssetPatch(asset, root), root, generated)
  {
  }

  /**
   * The objects after placing an asset: the new object under `generated`,
   * appended to the root's children, everything else as it was; a
   * consistent tree stays one.
   */
  lemma AssetPlaced(objs: Objects, asset: Asset, root: string, generated: string, m: Objects, r: Objects)
    requires m == objs[generated := AssetObject(asset, generated, root)]
    requires r == if root in m then m[root := m[root].(children := m[root].children + [generated])] else m
    ensures r.Keys == objs.Keys + {generated}
    ensures generated != root ==> r[generated] == AssetObject(asset, generated, root)
    ensures root in objs && generated != root ==> r[root].children == objs[root].children + [generated]
    ensures forall k :: k in objs && k != generated && k != root ==> r[k] == objs[k]
    ensures TreeConsistent(objs, root) && root != "" && generated !in objs ==> TreeConsistent(r, root)
  {
    if TreeConsistent(objs, root) && root != "" && generated !in objs {
      AssetAddedIsAdded(objs, asset, root, generated);
      AddPreservesTree(objs, root, AssetPatch(asset, root), root, generated);
    }
  }

  // ---------------------------------------------------------------------------
  // The store
  // ---------------------------------------------------------------------------

  class Store {
    var scene: Scene
    var importProgress: ImportProgress
    var importErrors: seq<ImportError>
    var isDirty: bool
    var currentScenePath: Option<string>

    /** The scene and import state a fresh store starts with. */
    constructor (created: string, updated: string, lightRotation: Vec3)
      ensures scene == DefaultScene(created, updated, lightRotation)
      ensures importProgress == IdleProgress && importErrors == []
      ensures !isDirty && currentScenePath == None
      ensures TreeConsistent(scene.objects, scene.root)
    {
      scene := DefaultScene(created, updated, lightRotation);
      importProgress := IdleProgress;
      importErrors := [];
      isDirty := false;
      currentScenePath := None;
      DefaultSceneIsTree(lightRotation);
    }

    /**
     * `addObject(patch, parentId)`: store the defaults overlaid with the
     * caller's fields under `patch.id || generated`, list the id last among the
     * children of `parentId` when that object exists, and mark the scene dirty.
     * The source's default `parentId` is "root".
     */
    method AddObject(patch: ObjectPatch, parentId: string, generated: string, now: string)
      modifies this`scene, this`isDirty
      ensures scene == old(scene).(objects := Added(old(scene.objects), patch, parentId, generated), updatedAt := now)
      ensures isDirty
      ensures AddIsWellFormed(old(scene.objects), scene.root, patch, parentId, generated) ==>
        TreeConsistent(scene.objects, scene.root)
    {
      var id := ChosenId(patch, generated);
      var objs := scene.objects[id := Overlay(DefaultObject(id, parentId), patch)];
      if parentId != "" && parentId in objs {
        objs := objs[parentId := objs[parentId].(children := objs[parentId].children + [id])];
      }
      if AddIsWellFormed(scene.objects, scene.root, patch, parentId, generated) {
        AddPreservesTree(scene.objects, scene.root, patch, parentId, generated);
      }
      scene := scene.(objects := objs, updatedAt := now);
      isDirty := true;
    }

    /**
     * `removeObject(id)`: nothing happens for the root or an unknown id;
     * otherwise `id` leaves its parent's children and it and everything below
     * it are deleted.
     */
    method RemoveObject(id: string, now: string)
      requires Acyclic(scene.objects)
      modifies this`scene, this`isDirty
      ensures id == old(scene.root) || id !in old(scene.objects) ==>
        scene == old(scene) && isDirty == old(isDirty)
      ensures id != old(scene.root) && id in old(scene.objects) ==>
        && RemovedFrom(old(scene.objects), id, scene.objects)
        && scene == old(scene).(objects := scene.objects, updatedAt := now)
        && isDirty
      ensures TreeConsistent(old(scene.objects), old(scene.root)) ==> TreeConsistent(scene.objects, scene.root)
    {
      if id == scene.root {
        return;
      }
      if id !in scene.objects {
        return;
      }
      var before := scene.objects;
      var unlinked := Unlinked(before, id);
      ghost var rank :| Ranked(before, rank);
      UnlinkedRanked(before, id, rank);
      ghost var bound := RankBound(rank);
      var after := DeleteSubtree(unlinked, id, rank, bound);
      DeleteAfterUnlink(before, scene.root, id, after);
      scene := scene.(objects := after, updatedAt := now);
      isDirty := true;
    }

    /**
     * `updateTransform(id, patch)`: merge the patch into the transform of an
     * existing object, except that the main camera's scale is read-only.
     */
    method UpdateTransform(id: string, patch: TransformPatch, now: string)
      modifies this`scene, this`isDirty
      ensures id in old(scene.objects) ==>
        && scene == old(scene).(objects := old(scene.objects)[id := TransformUpdated(old(scene.objects)[id], patch, true)],
                                updatedAt := now)
        && isDirty
      ensures id !in old(scene.objects) ==> scene == old(scene) && isDirty == old(isDirty)
      ensures TreeConsistent(old(scene.objects), old(scene.root)) ==> TreeConsistent(scene.objects, scene.root)
    {
      if id in scene.objects {
        var objs := scene.objects[id := TransformUpdated(scene.objects[id], patch, true)];
        if TreeConsistent(scene.objects, scene.root) {
          SameShapePreservesTree(scene.objects, scene.root, objs);
        }
        scene := scene.(objects := objs, updatedAt := now);
        isDirty := true;
      }
    }

    /**
     * `reparentObject(id, newParentId, index)`: when the object, the new parent
     * and the old parent exist, the new parent is not the object itself, and
     * the walk up from the new parent does not meet the object, move the object
     * from the old parent's children into the new parent's (at `index` when it
     * is within bounds, last otherwise) and point it at the new parent.
     * Anything else leaves the store as it was.
     */
    method ReparentObject(id: string, newParentId: Option<string>, index: Option<int>, now: string)
      requires TreeConsistent(scene.objects, scene.root)
      modifies this`scene, this`isDirty
      ensures ReparentLookup(old(scene.objects), id, newParentId) && !Reachable(old(scene.objects), id, newParentId.value) ==>
        scene == old(scene).(objects := Reparented(old(scene.objects), id, newParentId.value, index), updatedAt := now) && isDirty
      ensures !(ReparentLookup(old(scene.objects), id, newParentId) && !Reachable(old(scene.objects), id, newParentId.value)) ==>
        scene == old(scene) && isDirty == old(isDirty)
      ensures TreeConsistent(scene.objects, scene.root)
    {
      var objs := scene.objects;
      if ReparentLookup(objs, id, newParentId) {
        var np := newParentId.value;
        var cycle := AncestorWalkHits(objs, scene.root, np, id);
        if !cycle {
          ReparentPreservesTree(objs, scene.root, id, np, index);
          scene := scene.(objects := Reparented(objs, id, np, index), updatedAt := now);
          isDirty := true;
        }
      }
    }

    /** `updateComponent(id, key, data)`: shallow-merge `data` into one component of an existing object. */
    method UpdateComponent(id: string, key: string, data: Record, now: string)
      modifies this`scene, this`isDirty
      ensures id in old(scene.objects) ==>
        && scene == old(scene).(objects := old(scene.objects)[id := ComponentUpdated(old(scene.objects)[id], key, data)],
                                updatedAt := now)
        && isDirty
      ensures id !in old(scene.objects) ==> scene == old(scene) && isDirty == old(isDirty)
      ensures TreeConsistent(old(scene.objects), old(scene.root)) ==> TreeConsistent(scene.objects, scene.root)
    {
      if id in scene.objects {
        var objs := scene.objects[id := ComponentUpdated(scene.objects[id], key, data)];
        if TreeConsistent(scene.objects, scene.root) {
          SameShapePreservesTree(scene.objects, scene.root, objs);
        }
        scene := scene.(objects := objs, updatedAt := now);
        isDirty := true;
      }
    }

    /**
     * `updateObject(id, data)`: `Object.assign` the given fields onto an
     * existing object. Fields other than id, parent and children keep the tree
     * consistent.
     */
    method UpdateObject(id: string, patch: ObjectPatch, now: string)
      modifies this`scene, this`isDirty
      ensures id in old(scene.objects) ==>
        && scene == old(scene).(objects := old(scene.objects)[id := Overlay(old(scene.objects)[id], patch)], updatedAt := now)
        && isDirty
      ensures id !in old(scene.objects) ==> scene == old(scene) && isDirty == old(isDirty)
      ensures TreeConsistent(old(scene.objects), old(scene.root)) && ShapeNeutral(patch) ==>
        TreeConsistent(scene.objects, scene.root)
    {
      if id in scene.objects {
        var objs := scene.objects[id := Overlay(scene.objects[id], patch)];
        if TreeConsistent(scene.objects, scene.root) && ShapeNeutral(patch) {
          SameShapePreservesTree(scene.objects, scene.root, objs);
        }
        scene := scene.(objects := objs, updatedAt := now);
        isDirty := true;
      }
    }

    /**
     * `updateMeshMaterialSpec(id, spec)`: replace the material of an existing
     * object's mesh component. The spec is passed as the value written, since
     * an undo writes back whatever material value it captured.
     */
    method UpdateMeshMaterialSpec(id: string, material: Value, now: string)
      modifies this`scene, this`isDirty
      ensures id in old(scene.objects) && MeshOf(old(scene.objects)[id]).Obj? ==>
        && scene == old(scene).(objects := old(scene.objects)[id := MaterialUpdated(old(scene.objects)[id], material)],
                                updatedAt := now)
        && isDirty
        && Get(MeshOf(scene.objects[id]), "material") == material
      ensures !(id in old(scene.objects) && MeshOf(old(scene.objects)[id]).Obj?) ==>
        scene == old(scene) && isDirty == old(isDirty)
      ensures TreeConsistent(old(scene.objects), old(scene.root)) ==> TreeConsistent(scene.objects, scene.root)
    {
      if id !in scene.objects || !MeshOf(scene.objects[id]).Obj? {
        return;
      }
      var objs := scene.objects[id := MaterialUpdated(scene.objects[id], material)];
      if TreeConsistent(scene.objects, scene.root) {
        SameShapePreservesTree(scene.objects, scene.root, objs);
      }
      scene := scene.(objects := objs, updatedAt := now);
      isDirty := true;
    }

    /** `restoreObject(o)`: put `o` back and list it under its parent unless the parent already does. */
    method RestoreObject(o: SceneObject, now: string)
      modifies this`scene, this`isDirty
      ensures scene == old(scene).(objects := Restored(old(scene.objects), o), updatedAt := now)
      ensures isDirty
    {
      var objs := scene.objects[o.id := o];
      if Present(o.parentId) && o.parentId.value in objs {
        var p := o.parentId.value;
        if o.id !in objs[p].children {
          objs := objs[p := objs[p].(children := objs[p].children + [o.id])];
        }
      }
      scene := scene.(objects := objs, updatedAt := now);
      isDirty := true;
    }

    /** `loadScene(s)`: replace the scene; the loaded scene has no unsaved changes. */
    method LoadScene(s: Scene)
      modifies this`scene, this`isDirty
      ensures scene == s && !isDirty
    {
      scene := s;
      isDirty := false;
    }

    /**
     * `addAssetToScene(asset)`: a non-model asset throws and changes nothing;
     * a model becomes a mesh under the root, named after the asset without
     * its extension and pointing at the asset's file.
     */
    method AddAssetToScene(asset: Asset, generated: string, now: string) returns (thrown: Option<string>)
      modifies this`scene, this`isDirty
      ensures thrown.Some? <==> asset.kind != "model"
      ensures thrown.Some? ==> thrown == Some(NotAModel) && scene == old(scene) && isDirty == old(isDirty)
      ensures thrown.None? ==>
        && scene.objects.Keys == old(scene.objects).Keys + {generated}
        && (generated != scene.root ==> scene.objects[generated] == AssetObject(asset, generated, scene.root))
        && (scene.root in old(scene.objects) && generated != scene.root ==>
              scene.objects[scene.root].children == old(scene.objects)[scene.root].children + [generated])
        && (forall k :: k in old(scene.objects) && k != generated && k != scene.root ==> scene.objects[k] == old(scene.objects)[k])
        && scene == old(scene).(objects := scene.objects, updatedAt := now)
        && isDirty
      ensures (thrown.None? && TreeConsistent(old(scene.objects), old(scene.root)) && old(scene.root) != ""
               && generated !in old(scene.objects)) ==> TreeConsistent(scene.objects, scene.root)
    {
      if asset.kind != "model" {
        return Some(NotAModel);
      }
      var root := scene.root;
      var m := scene.objects[generated := AssetObject(asset, generated, root)];
      var objs := m;
      if root in objs {
        objs := objs[root := objs[root].(children := objs[root].children + [generated])];
      }
      AssetPlaced(scene.objects, asset, root, generated, m, objs);
      scene := scene.(objects := objs, updatedAt := now);
      isDirty := true;
      return None;
    }

    method MarkDirty()
      modifies this`isDirty
      ensures isDirty
    {
      isDirty := true;
    }

    method MarkClean()
      modifies this`isDirty
      ensures !isDirty
    {
      isDirty := false;
    }

    method SetScenePath(path: Option<string>)
      modifies this`currentScenePath
      ensures currentScenePath == path
    {
      currentScenePath := path;
    }

    /** `setImportProgress(patch)`: fields the patch leaves out keep their values. */
    method SetImportProgress(patch: ProgressPatch)
      modifies this`importProgress
      ensures importProgress == MergeProgress(old(importProgress), patch)
    {
      importProgress := MergeProgress(importProgress, patch);
    }

    method AddImportError(e: ImportError)
      modifies this`importErrors
      ensures importErrors == old(importErrors) + [e]
    {
      importErrors := importErrors + [e];
    }

    /** `clearImportState()`: back to idle progress and no errors. */
    method ClearImportState()
      modifies this`importProgress, this`importErrors
      ensures importProgress == IdleProgress && importErrors == []
    {
      importProgress := IdleProgress;
      importErrors := [];
    }
  }

  /** A partial progress update changes exactly the fields it names. */
  lemma MergeProgressKeepsUnnamed(p: ImportProgress, q: ProgressPatch)
    ensures q.isImporting.None? ==> MergeProgress(p, q).isImporting == p.isImporting
    ensures q.percentage.None? ==> MergeProgress(p, q).percentage == p.percentage
    ensures q.currentTask.None? ==> MergeProgress(p, q).currentTask == p.currentTask
    ensures q.isImporting.Some? ==> MergeProgress(p, q).isImporting == q.isImporting.value
    ensures q.percentage.Some? ==> MergeProgress(p, q).percentage == q.percentage.value
    ensures q.currentTask.Some? ==> MergeProgress(p, q).currentTask == q.currentTask.value
  {
  }
}
