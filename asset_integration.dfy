/**
 * Which stored assets a scene refers to, and which of those references
 * point at no known asset. A database id of 0 (or none) counts as no
 * reference, as it is falsy. `Object.values` order is given by the key
 * order parameters; the list of known assets, which the source reads from
 * the asset store, is a parameter.
 */
module AssetIntegration {
  import opened Wrappers
  import opened Seqs
  import opened SceneModel

  /** The ids a scene uses, by kind; texture ids are never collected. */
  datatype UsedAssets = UsedAssets(models: set<int>, textures: set<int>, materials: set<int>)

  /** A reference the store does not know: `type` is 'asset' or 'material'. */
  datatype MissingAsset = MissingAsset(kind: string, id: int)

  /** `scene.materials || {}`. */
  function MaterialsOf(scene: Scene): (r: map<string, MaterialRef>)
    ensures scene.materials.Some? ==> r == scene.materials.value
    ensures scene.materials.None? ==> r == map[]
  {
    if scene.materials.Some? then scene.materials.value else map[]
  }

  /** A truthy database id. */
  predicate RefersTo(dbId: Option<int>, id: int) {
    dbId == Some(id) && id != 0
  }

  /** `keys` lists the keys of `m`, each once, as `Object.keys` does. */
  ghost predicate ListsKeys<V>(keys: seq<string>, m: map<string, V>) {
    NoDup(keys) && forall k :: k in keys <==> k in m
  }

  /**
   * `collectUsedAssets(scene)`: the truthy database ids of the scene's model
   * references, the truthy database ids of its material references, and no
   * textures.
   */
  method CollectUsedAssets(scene: Scene, assetKeys: seq<string>, materialKeys: seq<string>)
    returns (used: UsedAssets)
    requires ListsKeys(assetKeys, scene.assets) && ListsKeys(materialKeys, MaterialsOf(scene))
    ensures forall id :: id in used.models <==>
      exists k :: k in scene.assets && scene.assets[k].kind == "model" && RefersTo(scene.assets[k].assetDbId, id)
    ensures forall id :: id in used.materials <==>
      exists k :: k in MaterialsOf(scene) && RefersTo(MaterialsOf(scene)[k].materialDbId, id)
    ensures used.textures == {}
  {
    var models: set<int> := {};
    var materials: set<int> := {};
    for i := 0 to |assetKeys|
      invariant forall id :: id in models <==>
        (exists j :: 0 <= j < i && scene.assets[assetKeys[j]].kind == "model" && RefersTo(scene.assets[assetKeys[j]].assetDbId, id))
    {
      var a := scene.assets[assetKeys[i]];
      if a.assetDbId.Some? && a.assetDbId.value != 0 && a.kind == "model" {
        models := models + {a.assetDbId.value};
      }
    }
    var mats := MaterialsOf(scene);
    for i := 0 to |materialKeys|
      invariant forall id :: id in materials <==> exists j :: 0 <= j < i && RefersTo(mats[materialKeys[j]].materialDbId, id)
    {
      var m := mats[materialKeys[i]];
      if m.materialDbId.Some? && m.materialDbId.value != 0 {
        materials := materials + {m.materialDbId.value};
      }
    }
    used := UsedAssets(models, {}, materials);
    forall id | exists k :: k in scene.assets && scene.assets[k].kind == "model" && RefersTo(scene.assets[k].assetDbId, id)
      ensures id in models
    {
      var k :| k in scene.assets && scene.assets[k].kind == "model" && RefersTo(scene.assets[k].assetDbId, id);
      var j :| 0 <= j < |assetKeys| && assetKeys[j] == k;
    }
    forall id | exists k :: k in mats && RefersTo(mats[k].materialDbId, id)
      ensures id in materials
    {
      var k :| k in mats && RefersTo(mats[k].materialDbId, id);
      var j :| 0 <= j < |materialKeys| && materialKeys[j] == k;
    }
  }

  /** The truthy ids of a sequence of optional ids, in order. */
  function TruthyIds(ids: seq<Option<int>>): (r: seq<int>)
    ensures forall id :: id in r <==> exists j :: 0 <= j < |ids| && RefersTo(ids[j], id)
  {
    if ids == [] then []
    else
      var init := TruthyIds(ids[..|ids| - 1]);
      var last := ids[|ids| - 1];
      assert forall j :: 0 <= j < |ids| - 1 ==> ids[..|ids| - 1][j] == ids[j];
      if last.Some? && last.value != 0 then init + [last.value] else init
  }

  /** The missing-reference entries of kind `kind` for `ids`, in order: each id the known list lacks. */
  function MissingOf(kind: string, ids: seq<int>, known: seq<int>): (r: seq<MissingAsset>)
    ensures forall x :: x in r <==> x.kind == kind && x.id in ids && x.id !in known
    ensures r == [] <==> forall id :: id in ids ==> id in known
  {
    if ids == [] then []
    else
      var init := MissingOf(kind, ids[..|ids| - 1], known);
      var last := ids[|ids| - 1];
      assert forall id :: id in ids <==> id in ids[..|ids| - 1] || id == last by {
        assert ids == ids[..|ids| - 1] + [last];
      }
      if last in known then init else init + [MissingAsset(kind, last)]
  }

  function AssetDbIds(assets: map<string, AssetRef>, keys: seq<string>): (r: seq<Option<int>>)
    requires forall k :: k in keys ==> k in assets
    ensures |r| == |keys| && forall j :: 0 <= j < |keys| ==> r[j] == assets[keys[j]].assetDbId
  {
    seq(|keys|, j requires 0 <= j < |keys| => assets[keys[j]].assetDbId)
  }

  function MaterialDbIds(materials: map<string, MaterialRef>, keys: seq<string>): (r: seq<Option<int>>)
    requires forall k :: k in keys ==> k in materials
    ensures |r| == |keys| && forall j :: 0 <= j < |keys| ==> r[j] == materials[keys[j]].materialDbId
  {
    seq(|keys|, j requires 0 <= j < |keys| => materials[keys[j]].materialDbId)
  }

  /** The entry one more optional id adds to the missing list. */
  function MissingEntry(kind: string, dbId: Option<int>, known: seq<int>): seq<MissingAsset> {
    if dbId.Some? && dbId.value != 0 && dbId.value !in known then [MissingAsset(kind, dbId.value)] else []
  }

  lemma MissingStep(kind: string, ids: seq<Option<int>>, i: nat, known: seq<int>)
    requires i < |ids|
    ensures MissingOf(kind, TruthyIds(ids[..i + 1]), known)
         == MissingOf(kind, TruthyIds(ids[..i]), known) + MissingEntry(kind, ids[i], known)
  {
    assert ids[..i + 1][..i] == ids[..i];
  }

  /**
   * `validateSceneAssets(scene)`: every truthy asset reference, then every
   * truthy material reference, whose id is not among the known assets' ids,
   * in `Object.values` order; the scene is valid exactly when there is none.
   */
  method ValidateSceneAssets(scene: Scene, assetKeys: seq<string>, materialKeys: seq<string>, known: seq<int>)
    returns (valid: bool, missing: seq<MissingAsset>)
    requires ListsKeys(assetKeys, scene.assets) && ListsKeys(materialKeys, MaterialsOf(scene))
    ensures missing == MissingOf("asset", TruthyIds(AssetDbIds(scene.assets, assetKeys)), known)
                     + MissingOf("material", TruthyIds(MaterialDbIds(MaterialsOf(scene), materialKeys)), known)
    ensures valid <==> missing == []
  {
    var assetMissing := CheckReferences("asset", AssetDbIds(scene.assets, assetKeys), known);
    var materialMissing := CheckReferences("material", MaterialDbIds(MaterialsOf(scene), materialKeys), known);
    missing := assetMissing + materialMissing;
    valid := |missing| == 0;
  }

  /** One of the two loops: the unknown truthy ids among `dbIds`, in order, each tagged `kind`. */
  method CheckReferences(kind: string, dbIds: seq<Option<int>>, known: seq<int>) returns (missing: seq<MissingAsset>)
    ensures missing == MissingOf(kind, TruthyIds(dbIds), known)
  {
    missing := [];
    for i := 0 to |dbIds|
      invariant missing == MissingOf(kind, TruthyIds(dbIds[..i]), known)
    {
      MissingStep(kind, dbIds, i, known);
      var dbId := dbIds[i];
      if dbId.Some? && dbId.value != 0 {
        var found := dbId.value in known;
        if !found {
          missing := missing + [MissingAsset(kind, dbId.value)];
        }
      }
    }
    assert dbIds[..|dbIds|] == dbIds;
  }

  /**
   * A scene is valid exactly when every truthy reference, to a model or any
   * other asset and to a material, names a known asset.
   */
  lemma ValidIffAllKnown(scene: Scene, assetKeys: seq<string>, materialKeys: seq<string>, known: seq<int>)
    requires ListsKeys(assetKeys, scene.assets) && ListsKeys(materialKeys, MaterialsOf(scene))
    ensures (MissingOf("asset", TruthyIds(AssetDbIds(scene.assets, assetKeys)), known)
             + MissingOf("material", TruthyIds(MaterialDbIds(MaterialsOf(scene), materialKeys)), known) == [])
      <==>
      (forall k, id :: k in scene.assets && RefersTo(scene.assets[k].assetDbId, id) ==> id in known)
      && (forall k, id :: k in MaterialsOf(scene) && RefersTo(MaterialsOf(scene)[k].materialDbId, id) ==> id in known)
  {
    var mats := MaterialsOf(scene);
    var a := AssetDbIds(scene.assets, assetKeys);
    var m := MaterialDbIds(mats, materialKeys);
    forall k, id | k in scene.assets && RefersTo(scene.assets[k].assetDbId, id)
      ensures id in TruthyIds(a)
    {
      var j :| 0 <= j < |assetKeys| && assetKeys[j] == k;
      assert RefersTo(a[j], id);
    }
    forall k, id | k in mats && RefersTo(mats[k].materialDbId, id)
      ensures id in TruthyIds(m)
    {
      var j :| 0 <= j < |materialKeys| && materialKeys[j] == k;
      assert RefersTo(m[j], id);
    }
  }
}
