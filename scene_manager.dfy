/**
 * Building a fresh scene and a fresh mesh object. Ids come from the uuid
 * supply (`uuid(k)` is the `k`-th call), the clock reading is a parameter,
 * and so is the factor `Math.PI / 180` that turns the light's degrees into
 * radians.
 */
module SceneManager {
  import opened Wrappers
  import opened Values
  import opened SceneModel
  import opened Seqs
  import opened SceneGraph

  /** `createDefaultCameraComponent()`: a perspective camera, 60 degrees, clipping at 0.1 and 1000. */
  const DefaultCamera: Value :=
    Obj(map["fov" := Num(60.0), "near" := Num(0.1), "far" := Num(1000.0), "orthographic" := Bool(false)])

  /** `createDefaultLightComponent()`: a white directional light that casts shadows. */
  const DefaultLight: Value :=
    Obj(map["color" := Str("#ffffff"), "intensity" := Num(1.0), "type" := Str("directional"), "castShadow" := Bool(true)])

  function MainCamera(id: string): SceneObject {
    SceneObject(id, "Main Camera", Camera, Some("root"), [], true, false,
                Transform(Vec3(0.0, 1.0, -10.0), Origin, UnitScale), Some(map["camera" := DefaultCamera]))
  }

  function DirectionalLight(id: string, radPerDeg: real): SceneObject {
    SceneObject(id, "Directional Light", Light, Some("root"), [], true, false,
                Transform(Vec3(0.0, 3.0, 0.0), Vec3(50.0 * radPerDeg, -30.0 * radPerDeg, 0.0), UnitScale),
                Some(map["light" := DefaultLight]))
  }

  function NewRoot(cameraId: string, lightId: string): SceneObject {
    SceneObject("root", "Root", Group, None, [cameraId, lightId], true, true, IdentityTransform, None)
  }

  /**
   * `createNewScene(name)`: a root group holding a main camera and a
   * directional light, no assets, default settings; the name defaults to
   * 'New Scene' when none is passed. The camera id is drawn first, then the
   * light id, then the scene id.
   */
  function CreateNewScene(name: Option<string>, uuid: nat -> string, now: string, radPerDeg: real): (s: Scene)
    ensures s.id == uuid(2) && s.root == "root" && s.version == "1.0.0"
    ensures name.None? ==> s.name == "New Scene"
    ensures name.Some? ==> s.name == name.value
    ensures s.createdAt == now && s.updatedAt == now
    ensures s.assets == map[] && s.materials == None && s.settings == DefaultSettings
  {
    var cameraId := uuid(0);
    var lightId := uuid(1);
    Scene(uuid(2), Pick(name, "New Scene"), "1.0.0", now, now, "root",
          map["root" := NewRoot(cameraId, lightId)][cameraId := MainCamera(cameraId)][lightId := DirectionalLight(lightId, radPerDeg)],
          map[], None, DefaultSettings)
  }

  /**
   * With two distinct fresh ids, the new scene holds exactly the root, one
   * camera and one light, and the root lists them in that order.
   */
  lemma NewSceneContents(name: Option<string>, uuid: nat -> string, now: string, radPerDeg: real)
    requires uuid(0) != uuid(1) && uuid(0) != "root" && uuid(1) != "root"
    ensures var objs := CreateNewScene(name, uuid, now, radPerDeg).objects;
      && objs.Keys == {"root", uuid(0), uuid(1)}
      && |objs| == 3
      && objs["root"] == NewRoot(uuid(0), uuid(1))
      && objs[uuid(0)] == MainCamera(uuid(0))
      && objs[uuid(1)] == DirectionalLight(uuid(1), radPerDeg)
      && (forall k :: k in objs ==> (objs[k].kind == Camera <==> k == uuid(0)))
      && (forall k :: k in objs ==> (objs[k].kind == Light <==> k == uuid(1)))
  {
    var objs := CreateNewScene(name, uuid, now, radPerDeg).objects;
    assert objs.Keys == {"root", uuid(0), uuid(1)};
    assert |objs.Keys| == 3;
  }

  /** With two distinct, non-empty fresh ids the new scene is a consistent tree under `root`. */
  lemma NewSceneIsTree(name: Option<string>, uuid: nat -> string, now: string, radPerDeg: real)
    requires uuid(0) != uuid(1)
    requires uuid(0) !in {"", "root"} && uuid(1) !in {"", "root"}
    ensures TreeConsistent(CreateNewScene(name, uuid, now, radPerDeg).objects, "root")
  {
    NewSceneContents(name, uuid, now, radPerDeg);
    RootWithTwoLeaves(CreateNewScene(name, uuid, now, radPerDeg).objects, "root", uuid(0), uuid(1));
  }

  /** A root listing two distinct leaves that name it back. */
  ghost predicate RootOverTwoLeaves(objs: Objects, root: string, a: string, b: string) {
    && a != b && a != root && b != root && root != ""
    && objs.Keys == {root, a, b}
    && objs[root].id == root && objs[root].parentId == None && objs[root].children == [a, b]
    && objs[a].id == a && objs[a].parentId == Some(root) && objs[a].children == []
    && objs[b].id == b && objs[b].parentId == Some(root) && objs[b].children == []
  }

  /** Such a root over two leaves is a consistent tree. */
  lemma RootWithTwoLeaves(objs: Objects, root: string, a: string, b: string)
    requires RootOverTwoLeaves(objs, root, a, b)
    ensures TreeConsistent(objs, root)
  {
    TwoLeavesLinked(objs, root, a, b);
    TwoLeavesRanked(objs, root, a, b);
  }

  lemma TwoLeavesLinked(objs: Objects, root: string, a: string, b: string)
    requires RootOverTwoLeaves(objs, root, a, b)
    ensures RootIsParentless(objs, root) && StoredUnderOwnId(objs) && NonRootsListed(objs, root)
    ensures ChildrenPointBack(objs) && ChildListsDistinct(objs)
  {
    forall k | k in objs ensures objs[k].id == k && NoDup(objs[k].children) {
      if k == root {
        assert NoDup([a, b]);
      } else {
        assert k == a || k == b;
      }
    }
    forall k | k in objs && k != root ensures ListedByParent(objs, k) {
      assert k == a || k == b;
    }
    forall p, c | p in objs && c in objs[p].children ensures c in objs && objs[c].parentId == Some(p) {
      assert p == root;
    }
  }

  lemma TwoLeavesRanked(objs: Objects, root: string, a: string, b: string)
    requires RootOverTwoLeaves(objs, root, a, b)
    ensures Acyclic(objs)
  {
    var rank := map k | k in objs :: if k == root then 0 else 1;
    forall p, c | p in objs && c in objs && c in objs[p].children ensures rank[p] < rank[c] {
      assert p == root && c != root;
    }
    assert Ranked(objs, rank);
  }

  datatype Geometry = Box | Sphere | Plane | Cylinder | Torus | Capsule

  function GeometryName(g: Geometry): string {
    match g
    case Box => "box"
    case Sphere => "sphere"
    case Plane => "plane"
    case Cylinder => "cylinder"
    case Torus => "torus"
    case Capsule => "capsule"
  }

  /**
   * `createMesh(name, geometryType)`: an unparented, childless mesh at the
   * identity whose mesh component names the geometry (a box by default) and
   * casts and receives shadows, under the next fresh id.
   */
  function CreateMesh(name: string, geometry: Option<Geometry>, uuid: nat -> string): (o: SceneObject)
    ensures o.id == uuid(0) && o.name == name && o.kind == Mesh
    ensures o.parentId == None && o.children == []
    ensures o.visible && !o.locked && o.transform == IdentityTransform
    ensures MeshOf(o).Obj?
    ensures Get(MeshOf(o), "geometry") == Str(GeometryName(Pick(geometry, Box)))
    ensures Get(MeshOf(o), "castShadow") == Bool(true) && Get(MeshOf(o), "receiveShadow") == Bool(true)
    ensures MaterialOf(o) == None
  {
    var mesh := Obj(map["assetId" := Str("default"), "materialId" := Str("default"),
                        "geometry" := Str(GeometryName(Pick(geometry, Box))),
                        "castShadow" := Bool(true), "receiveShadow" := Bool(true)]);
    SceneObject(uuid(0), name, Mesh, None, [], true, false, IdentityTransform, Some(map["mesh" := mesh]))
  }

  /** Geometry names are distinct, so the component tells the geometry back. */
  lemma GeometryNameInjective(g: Geometry, h: Geometry)
    ensures GeometryName(g) == GeometryName(h) ==> g == h
  {
  }
}
