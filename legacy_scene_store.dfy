/**
 * The older scene store: the same in-place edits of the object map as the
 * client's store, without the unsaved-changes flag, without the read-only
 * scale of the main camera, and with a default scene holding only the root.
 */
module LegacySceneStore {
  import opened Wrappers
  import opened Seqs
  import opened Values
  import opened SceneModel
  import opened SceneGraph
  import opened SceneEdits

  /**
   * The scene a fresh store holds: a locked root group with no children;
   * `created` and `updated` are the two clock readings.
   */
  function DefaultScene(created: string, updated: string): (s: Scene)
    ensures s.root == "root" && s.objects.Keys == {"root"}
    ensures s.objects["root"].children == [] && s.objects["root"].parentId == None
    ensures s.assets == map[] && s.settings == DefaultSettings
    ensures s.createdAt == created && s.updatedAt == updated
  {
    Scene("default-scene", "New Scene", "1.0.0", created, updated, "root", map["root" := RootOnly], map[], None, DefaultSettings)
  }

  /** A lone parentless root is a consistent tree. */
  lemma DefaultSceneIsTree()
    ensures TreeConsistent(map["root" := RootOnly], "root")
  {
    assert Ranked(map["root" := RootOnly], map["root" := 0]);
  }

  class Store {
    var scene: Scene
    var importProgress: ImportProgress
    var importErrors: seq<ImportError>

    constructor (created: string, updated: string)
      ensures scene == DefaultScene(created, updated)
      ensures importProgress == IdleProgress && importErrors == []
      ensures TreeConsistent(scene.objects, scene.root)
    {
      scene := DefaultScene(created, updated);
      importProgress := IdleProgress;
      importErrors := [];
      DefaultSceneIsTree();
    }

    /** `addObject(patch, parentId)`, as in the client's store but without the dirty flag. */
    method AddObject(patch: ObjectPatch, parentId: string, generated: string, now: string)
      modifies this`scene
      ensures scene == old(scene).(objects := Added(old(scene.objects), patch, parentId, generated), updatedAt := now)
      ensures AddIsWellFormed(old(scene.objects), scene.root, patch, parentId, generated) ==>
        TreeConsistent(scene.objects, scene.root)
    {
      var id := ChosenId(patch, generated);
      var objs := scene.objects[id := Overlay(DefaultObject(id, parentId), patch)];
      if parentId != "" && parentId in objs {
        objs := objs[parentId := objs[parentId].(children := objs[parentId].children + [id])];
      }
      if AddIsWellFormed(scene.objects, scene.root, patch, parentId, generated) {
        AddPreservesTree(scene.objects, scene.root, patch, parentId, generated);
      }
      scene := scene.(objects := objs, updatedAt := now);
    }

    /** `removeObject(id)`: a no-op on the root or an unknown id; otherwise unlink and delete the subtree. */
    method RemoveObject(id: string, now: string)
      requires Acyclic(scene.objects)
      modifies this`scene
      ensures id == old(scene.root) || id !in old(scene.objects) ==> scene == old(scene)
      ensures id != old(scene.root) && id in old(scene.objects) ==>
        && RemovedFrom(old(scene.objects), id, scene.objects)
        && scene == old(scene).(objects := scene.objects, updatedAt := now)
      ensures TreeConsistent(old(scene.objects), old(scene.root)) ==> TreeConsistent(scene.objects, scene.root)
    {
      if id == scene.root {
        return;
      }
      if id !in scene.objects {
        return;
      }
      var before := scene.objects;
      var unlinked := Unlinked(before, id);
      ghost var rank :| Ranked(before, rank);
      UnlinkedRanked(before, id, rank);
      ghost var bound := RankBound(rank);
      var after := DeleteSubtree(unlinked, id, rank, bound);
      DeleteAfterUnlink(before, scene.root, id, after);
      scene := scene.(objects := after, updatedAt := now);
    }

    /** `updateTransform(id, patch)`: merge every given field, the main camera's scale included. */
    method UpdateTransform(id: string, patch: TransformPatch, now: string)
      modifies this`scene
      ensures id in old(scene.objects) ==>
        scene == old(scene).(objects := old(scene.objects)[id := TransformUpdated(old(scene.objects)[id], patch, false)],
                             updatedAt := now)
      ensures id in old(scene.objects) ==>
        scene.objects[id].transform == MergeTransform(old(scene.objects)[id].transform, patch)
      ensures id !in old(scene.objects) ==> scene == old(scene)
      ensures TreeConsistent(old(scene.objects), old(scene.root)) ==> TreeConsistent(scene.objects, scene.root)
    {
      if id in scene.objects {
        var objs := scene.objects[id := TransformUpdated(scene.objects[id], patch, false)];
        if TreeConsistent(scene.objects, scene.root) {
          SameShapePreservesTree(scene.objects, scene.root, objs);
        }
        scene := scene.(objects := objs, updatedAt := now);
      }
    }

    /** `reparentObject(id, newParentId, index)`, with the same checks and walk as the client's store. */
    method ReparentObject(id: string, newParentId: Option<string>, index: Option<int>, now: string)
      requires TreeConsistent(scene.objects, scene.root)
      modifies this`scene
      ensures ReparentLookup(old(scene.objects), id, newParentId) && !Reachable(old(scene.objects), id, newParentId.value) ==>
        scene == old(scene).(objects := Reparented(old(scene.objects), id, newParentId.value, index), updatedAt := now)
      ensures !(ReparentLookup(old(scene.objects), id, newParentId) && !Reachable(old(scene.objects), id, newParentId.value)) ==>
        scene == old(scene)
      ensures TreeConsistent(scene.objects, scene.root)
    {
      var objs := scene.objects;
      if ReparentLookup(objs, id, newParentId) {
        var np := newParentId.value;
        var cycle := AncestorWalkHits(objs, scene.root, np, id);
        if !cycle {
          ReparentPreservesTree(objs, scene.root, id, np, index);
          scene := scene.(objects := Reparented(objs, id, np, index), updatedAt := now);
        }
      }
    }

    /** `updateComponent(id, key, data)`: shallow-merge `data` into one component of an existing object. */
    method UpdateComponent(id: string, key: string, data: Record, now: string)
      modifies this`scene
      ensures id in old(scene.objects) ==>
        scene == old(scene).(objects := old(scene.objects)[id := ComponentUpdated(old(scene.objects)[id], key, data)],
                             updatedAt := now)
      ensures id !in old(scene.objects) ==> scene == old(scene)
      ensures TreeConsistent(old(scene.objects), old(scene.root)) ==> TreeConsistent(scene.objects, scene.root)
    {
      if id in scene.objects {
        var objs := scene.objects[id := ComponentUpdated(scene.objects[id], key, data)];
        if TreeConsistent(scene.objects, scene.root) {
          SameShapePreservesTree(scene.objects, scene.root, objs);
        }
        scene := scene.(objects := objs, updatedAt := now);
      }
    }

    method LoadScene(s: Scene)
      modifies this`scene
      ensures scene == s
    {
      scene := s;
    }

    method SetImportProgress(patch: ProgressPatch)
      modifies this`importProgress
      ensures importProgress == MergeProgress(old(importProgress), patch)
    {
      importProgress := MergeProgress(importProgress, patch);
    }

    method AddImportError(e: ImportError)
      modifies this`importErrors
      ensures importErrors == old(importErrors) + [e]
    {
      importErrors := importErrors + [e];
    }

    method ClearImportState()
      modifies this`importProgress, this`importErrors
      ensures importProgress == IdleProgress && importErrors == []
    {
      importProgress := IdleProgress;
      importErrors := [];
    }
  }
}
