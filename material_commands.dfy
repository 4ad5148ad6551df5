/**
 * The two undoable material edits. Each captures, when it is created, the
 * material the object's mesh holds (`before`) and the one to write
 * (`after`); `execute` writes `after` through the scene store and `undo`
 * writes `before` back, doing nothing when there was no material.
 */
module MaterialCommands {
  import opened Wrappers
  import opened Values
  import opened SceneModel
  import opened SceneEdits
  import opened NormalizeMaterial
  import SceneStore

  /** `scene.objects[id]?.components?.mesh?.material`: the stored material value, undefined when there is none. */
  function CurrentMaterial(objs: map<string, SceneObject>, id: string): (r: Value)
    ensures id in objs && MeshOf(objs[id]).Obj? ==> r == Get(MeshOf(objs[id]), "material")
    ensures !(id in objs && MeshOf(objs[id]).Obj?) ==> r == Undefined
  {
    if id in objs then Get(MeshOf(objs[id]), "material") else Undefined
  }

  /** `current ? JSON.parse(JSON.stringify(current)) : null`: the material to write back on undo, if any. */
  function Captured(current: Value): (r: Option<Value>)
    ensures r.Some? <==> Truthy(current)
    ensures r.Some? ==> r.value == current
  {
    if Truthy(current) then Some(current) else None
  }

  /** `current?.type ?? 'MeshStandardMaterial'`: the current class, else the standard one. */
  function CurrentType(current: Value): (r: string)
    ensures Get(current, "type").Str? ==> r == Get(current, "type").s
    ensures Get(current, "type").Undefined? || Get(current, "type").Null? ==> r == TypeName(MeshStandardMaterial)
  {
    var t := Get(current, "type");
    if t.Str? then t.s else TypeName(MeshStandardMaterial)
  }

  /** `current?.props ?? {}`, as spread: the current props, else none. */
  function CurrentProps(current: Value): (r: Record)
    ensures Get(current, "props").Obj? ==> r == Get(current, "props").fields
    ensures !Get(current, "props").Obj? ==> r == map[]
  {
    Entries(Get(current, "props"))
  }

  /** A material spec reads back through the command's defaults as itself. */
  lemma CurrentOfEncoded(spec: MaterialSpec)
    ensures CurrentType(EncodeMaterial(spec)) == spec.kind
    ensures CurrentProps(EncodeMaterial(spec)) == spec.props
    ensures Captured(EncodeMaterial(spec)) == Some(EncodeMaterial(spec))
  {
    var v := EncodeMaterial(spec);
    assert Get(v, "type") == Str(spec.kind) && Get(v, "props") == Obj(spec.props);
  }

  /**
   * Writing a material and then writing back the one the mesh held leaves the
   * object exactly as it was, whatever the shape of that material, as long as
   * it was there to be captured.
   */
  lemma MaterialWriteUndone(o: SceneObject, a: Value, b: Value)
    requires MeshOf(o).Obj? && Get(MeshOf(o), "material") == b && Truthy(b)
    ensures MaterialUpdated(MaterialUpdated(o, a), b) == o
  {
    var c := o.components.value;
    var mesh := MeshOf(o);
    assert "mesh" in c && c["mesh"] == mesh;
    assert "material" in mesh.fields;
    var o1 := MaterialUpdated(o, a);
    var mesh1 := Obj(mesh.fields["material" := a]);
    assert o1.components == Some(c["mesh" := mesh1]) && MeshOf(o1) == mesh1;
    assert mesh1.fields["material" := b] == mesh.fields;
    assert c["mesh" := mesh1]["mesh" := mesh] == c;
  }

  class UpdateMaterialPropsCommand {
    const objectId: string
    var before: Option<Value>
    var after: MaterialSpec

    /** Capture the current material and the same class with `nextProps` laid over its props. */
    constructor (objectId: string, nextProps: Record, store: SceneStore.Store)
      ensures this.objectId == objectId
      ensures before == Captured(CurrentMaterial(store.scene.objects, objectId))
      ensures var current := CurrentMaterial(store.scene.objects, objectId);
        && after.kind == CurrentType(current)
        && after.props.Keys == CurrentProps(current).Keys + nextProps.Keys
        && (forall k :: k in nextProps ==> after.props[k] == nextProps[k])
        && (forall k :: k in CurrentProps(current) && k !in nextProps ==> after.props[k] == CurrentProps(current)[k])
    {
      this.objectId := objectId;
      var current := CurrentMaterial(store.scene.objects, objectId);
      before := Captured(current);
      after := MaterialSpec(CurrentType(current), CurrentProps(current) + nextProps);
    }

    method Execute(store: SceneStore.Store, now: string)
      modifies store
      ensures objectId in old(store.scene.objects) && MeshOf(old(store.scene.objects)[objectId]).Obj? ==>
        CurrentMaterial(store.scene.objects, objectId) == EncodeMaterial(after)
      ensures objectId in old(store.scene.objects) && MeshOf(old(store.scene.objects)[objectId]).Obj? ==>
        store.scene.objects == old(store.scene.objects)[objectId := MaterialUpdated(old(store.scene.objects)[objectId], EncodeMaterial(after))]
      ensures !(objectId in old(store.scene.objects) && MeshOf(old(store.scene.objects)[objectId]).Obj?) ==>
        store.scene == old(store.scene)
      ensures store.scene.objects.Keys == old(store.scene.objects.Keys)
    {
      store.UpdateMeshMaterialSpec(objectId, EncodeMaterial(after), now);
    }

    /** Write `before` back; nothing when the mesh had no material. */
    method Undo(store: SceneStore.Store, now: string)
      modifies store
      ensures before.None? ==> store.scene == old(store.scene) && store.isDirty == old(store.isDirty)
      ensures before.Some? && objectId in old(store.scene.objects) && MeshOf(old(store.scene.objects)[objectId]).Obj? ==>
        && CurrentMaterial(store.scene.objects, objectId) == before.value
        && store.scene.objects == old(store.scene.objects)[objectId := MaterialUpdated(old(store.scene.objects)[objectId], before.value)]
      ensures store.scene.objects.Keys == old(store.scene.objects.Keys)
    {
      if before.None? {
        return;
      }
      store.UpdateMeshMaterialSpec(objectId, before.value, now);
    }

    /**
     * `merge(next)`: absorb a later props edit of the same object by taking its
     * `after`; `before` stays, so one undo returns to the material before both.
     * `None` stands for a command of another class.
     */
    method Merge(next: Option<UpdateMaterialPropsCommand>) returns (merged: bool)
      modifies this
      ensures merged <==> next.Some? && next.value.objectId == objectId
      ensures merged ==> after == old(next.value.after)
      ensures !merged ==> after == old(after)
      ensures before == old(before)
    {
      if next.None? || next.value.objectId != objectId {
        return false;
      }
      after := next.value.after;
      return true;
    }
  }

  class ChangeMaterialTypeCommand {
    const objectId: string
    var before: Option<Value>
    var after: MaterialSpec

    /** Capture the current material and its props carried over to `nextType`. */
    constructor (objectId: string, nextType: MaterialType, store: SceneStore.Store)
      ensures this.objectId == objectId
      ensures before == Captured(CurrentMaterial(store.scene.objects, objectId))
      ensures after == MaterialSpec(TypeName(nextType), Normalized(CurrentProps(CurrentMaterial(store.scene.objects, objectId)), nextType))
      ensures after.props.Keys <= AllowedKeys(nextType)
    {
      this.objectId := objectId;
      var current := CurrentMaterial(store.scene.objects, objectId);
      var nextProps := NormalizeMaterialProps(CurrentProps(current), nextType);
      after := MaterialSpec(TypeName(nextType), nextProps);
      before := Captured(current);
    }

    method Execute(store: SceneStore.Store, now: string)
      modifies store
      ensures objectId in old(store.scene.objects) && MeshOf(old(store.scene.objects)[objectId]).Obj? ==>
        CurrentMaterial(store.scene.objects, objectId) == EncodeMaterial(after)
      ensures objectId in old(store.scene.objects) && MeshOf(old(store.scene.objects)[objectId]).Obj? ==>
        store.scene.objects == old(store.scene.objects)[objectId := MaterialUpdated(old(store.scene.objects)[objectId], EncodeMaterial(after))]
      ensures !(objectId in old(store.scene.objects) && MeshOf(old(store.scene.objects)[objectId]).Obj?) ==>
        store.scene == old(store.scene)
      ensures store.scene.objects.Keys == old(store.scene.objects.Keys)
    {
      store.UpdateMeshMaterialSpec(objectId, EncodeMaterial(after), now);
    }

    /** Write `before` back, which restores the original class; nothing when there was no material. */
    method Undo(store: SceneStore.Store, now: string)
      modifies store
      ensures before.None? ==> store.scene == old(store.scene) && store.isDirty == old(store.isDirty)
      ensures before.Some? && objectId in old(store.scene.objects) && MeshOf(old(store.scene.objects)[objectId]).Obj? ==>
        && CurrentMaterial(store.scene.objects, objectId) == before.value
        && store.scene.objects == old(store.scene.objects)[objectId := MaterialUpdated(old(store.scene.objects)[objectId], before.value)]
      ensures store.scene.objects.Keys == old(store.scene.objects.Keys)
    {
      if before.None? {
        return;
      }
      store.UpdateMeshMaterialSpec(objectId, before.value, now);
    }
  }
}
