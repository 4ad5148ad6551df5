/**
 * The converter from the external scene JSON (a tree of nested objects) to
 * the editor's scene (a flat map under a fixed root). Every converted object
 * gets the next id of the uuid supply, in pre-order; the scene id is drawn
 * first and the asset ids last.
 */
module SceneFormatConverter {
  import opened Wrappers
  import opened Seqs
  import opened Values
  import opened Text
  import opened SceneModel
  import opened SceneGraph
  import opened FreshIds

  // ---------------------------------------------------------------------------
  // The external format
  // ---------------------------------------------------------------------------

  datatype FileInfo = FileInfo(kind: string, url: string)

  /** `userData`: its `locked` flag, its `fileInfo` entry and all its other entries. */
  datatype UserData = UserData(locked: Option<bool>, fileInfo: Option<FileInfo>, others: Record)

  /** An external object; `None` is a field left out, and an absent child list is empty. */
  datatype ExternalObject = ExternalObject(
    name: Option<string>,
    kind: Option<string>,
    position: Option<Vec3>,
    rotation: Option<seq<real>>,
    scale: Option<Vec3>,
    visible: Option<bool>,
    userData: Option<UserData>,
    children: seq<ExternalObject>)

  datatype Viewer = Viewer(background: Option<string>, environment: Option<string>)

  /** The parts of an external scene file the converter reads: `viewer`, `scene.name` and `objects`. */
  datatype ExternalScene = ExternalScene(viewer: Option<Viewer>, sceneName: Option<string>, objects: Option<seq<ExternalObject>>)

  /** `externalScene.objects || []`. */
  function TopLevel(ext: ExternalScene): seq<ExternalObject> {
    if ext.objects.Some? then ext.objects.value else []
  }

  /** `s || fallback` on an optional string: an absent or empty string falls back. */
  function OrDefault(s: Option<string>, fallback: string): string {
    if s.Some? && s.value != "" then s.value else fallback
  }

  // ---------------------------------------------------------------------------
  // Field conversions
  // ---------------------------------------------------------------------------

  const TypeTable: map<string, ObjectType> :=
    map["3DTILES" := Mesh, "MESH" := Mesh, "GROUP" := Group, "LIGHT" := Light, "CAMERA" := Camera]

  /** `mapObjectType`: the upper-cased name looked up in the table, unknown names read as meshes. */
  function MapObjectType(t: Option<string>): (r: ObjectType)
    ensures r == Group <==> t.None? || t.value == "" || ToUpper(t.value) == "GROUP"
    ensures r == Light <==> t.Some? && ToUpper(t.value) == "LIGHT"
    ensures r == Camera <==> t.Some? && ToUpper(t.value) == "CAMERA"
    ensures r == Mesh <==> t.Some? && t.value != "" && ToUpper(t.value) !in {"GROUP", "LIGHT", "CAMERA"}
  {
    if t.None? || t.value == "" then Group
    else if ToUpper(t.value) in TypeTable then TypeTable[ToUpper(t.value)]
    else Mesh
  }

  /** The type mapping does not depend on letter case. */
  lemma MapObjectTypeIgnoresCase(s: string)
    ensures MapObjectType(Some(ToLower(s))) == MapObjectType(Some(s))
  {
    UpperOfLower(s);
  }

  /** `extractRotation`: the first three numbers of a rotation that has them, zero otherwise. */
  function ExtractRotation(rotation: Option<seq<real>>): (v: Vec3)
    ensures rotation.Some? && |rotation.value| >= 3 ==> [v.x, v.y, v.z] == rotation.value[..3]
    ensures !(rotation.Some? && |rotation.value| >= 3) ==> v == Origin
  {
    if rotation.Some? && |rotation.value| >= 3 then Vec3(rotation.value[0], rotation.value[1], rotation.value[2])
    else Origin
  }

  /** The model component a `fileInfo` entry becomes. */
  function ModelComponent(f: FileInfo): Value {
    Obj(map["type" := Str(f.kind), "url" := Str(f.url), "loadState" := Str("pending")])
  }

  /** The user data that is kept as metadata: everything but `fileInfo` and `locked`. */
  function OtherData(ud: UserData): Record {
    ud.others - {"fileInfo", "locked"}
  }

  /**
   * `convertComponents`: a model component for a `fileInfo` entry, the rest
   * of the user data as `metadata`, and no components at all when neither.
   */
  function ConvertComponents(ud: Option<UserData>): (r: Option<Record>)
    ensures r.Some? <==> ud.Some? && (ud.value.fileInfo.Some? || OtherData(ud.value) != map[])
    ensures r.Some? ==> r.value.Keys <= {"model", "metadata"}
    ensures r.Some? ==> ("model" in r.value <==> ud.value.fileInfo.Some?)
    ensures r.Some? && "model" in r.value ==>
      Get(r.value["model"], "loadState") == Str("pending") && Get(r.value["model"], "url") == Str(ud.value.fileInfo.value.url)
    ensures r.Some? ==> ("metadata" in r.value <==> OtherData(ud.value) != map[])
    ensures r.Some? && "metadata" in r.value ==> r.value["metadata"] == Obj(OtherData(ud.value))
  {
    if ud.None? then None
    else
      var model: Record := if ud.value.fileInfo.Some? then map["model" := ModelComponent(ud.value.fileInfo.value)] else map[];
      var other := OtherData(ud.value);
      var meta: Record := if other != map[] then map["metadata" := Obj(other)] else map[];
      var c := model + meta;
      assert "model" in model ==> "model" in c;
      assert "metadata" in meta ==> "metadata" in c;
      if c != map[] then Some(c) else None
  }

  /** `convertSettings`: the viewer's environment and background, with the grid always on. */
  function ConvertSettings(viewer: Option<Viewer>): (s: Settings)
    ensures s.gridVisible
    ensures viewer.None? ==> s == DefaultSettings
    ensures s.environment != "" && s.backgroundColor != ""
    ensures viewer.Some? && viewer.value.background.Some? && viewer.value.background.value != "" ==>
      s.backgroundColor == viewer.value.background.value
    ensures viewer.Some? && viewer.value.environment.Some? && viewer.value.environment.value != "" ==>
      s.environment == viewer.value.environment.value
  {
    var v := if viewer.Some? then viewer.value else Viewer(None, None);
    Settings(OrDefault(v.environment, "default"), true, OrDefault(v.background, "#1a1a1a"))
  }

  /** The object `convertObjectRecursive` stores for `e` under `id`, before its children are pushed. */
  function ConvertedObject(e: ExternalObject, id: string, parent: string): SceneObject {
    SceneObject(
      id, OrDefault(e.name, "Unnamed"), MapObjectType(e.kind), Some(parent), [],
      e.visible != Some(false),
      e.userData.Some? && e.userData.value.locked == Some(true),
      Transform(Pick(e.position, Origin), ExtractRotation(e.rotation), Pick(e.scale, UnitScale)),
      ConvertComponents(e.userData))
  }

  /** An external object that says nothing converts to a visible, unlocked, childless group at the identity. */
  lemma ConvertedDefaults(id: string, parent: string)
    ensures ConvertedObject(ExternalObject(None, None, None, None, None, None, None, []), id, parent)
      == SceneObject(id, "Unnamed", Group, Some(parent), [], true, false, IdentityTransform, None)
  {
  }

  /** The fields an external object does give are kept. */
  lemma ConvertedKeepsGiven(e: ExternalObject, id: string, parent: string)
    ensures var o := ConvertedObject(e, id, parent);
      && (e.name.Some? && e.name.value != "" ==> o.name == e.name.value)
      && (e.position.Some? ==> o.transform.position == e.position.value)
      && (e.scale.Some? ==> o.transform.scale == e.scale.value)
      && (o.visible <==> e.visible != Some(false))
      && (o.locked <==> e.userData.Some? && e.userData.value.locked == Some(true))
  {
  }

  /** The root object `convertObjects` creates: a locked, parentless group named Root. */
  const RootObject := SceneObject("root", "Root", Group, None, [], true, true, IdentityTransform, None)

  // ---------------------------------------------------------------------------
  // The flattened tree
  // ---------------------------------------------------------------------------

  /** The number of objects in the tree of `e`. */
  function Size(e: ExternalObject): nat
    decreases e
  {
    1 + SizeAll(e.children)
  }

  function SizeAll(es: seq<ExternalObject>): nat
    decreases es
  {
    if es == [] then 0 else SizeAll(es[..|es| - 1]) + Size(es[|es| - 1])
  }

  /** The ids the objects `es` get when the supply stands at `n`. */
  function ChildIds(es: seq<ExternalObject>, n: nat, uuid: nat -> string): (r: seq<string>)
    ensures |r| == |es|
    decreases |es|
  {
    if es == [] then []
    else ChildIds(es[..|es| - 1], n, uuid) + [uuid(n + SizeAll(es[..|es| - 1]))]
  }

  /** The objects `es` convert to with the supply at `n`, and `owner` holding `node` with their ids as children. */
  function Attached(es: seq<ExternalObject>, owner: string, node: SceneObject, n: nat, uuid: nat -> string): Objects
    decreases es, 1
  {
    FlattenAll(es, owner, n, uuid)[owner := node.(children := ChildIds(es, n, uuid))]
  }

  /** The objects `convertObjectRecursive(e, parent)` adds with the supply at `n`. */
  function Flatten(e: ExternalObject, parent: string, n: nat, uuid: nat -> string): Objects
    decreases e, 2
  {
    Attached(e.children, uuid(n), ConvertedObject(e, uuid(n), parent), n + 1, uuid)
  }

  /** The objects converting each of `es` under `parent` adds with the supply at `n`. */
  function FlattenAll(es: seq<ExternalObject>, parent: string, n: nat, uuid: nat -> string): Objects
    decreases es, 0
  {
    if es == [] then map[]
    else
      var init := es[..|es| - 1];
      FlattenAll(init, parent, n, uuid) + Flatten(es[|es| - 1], parent, n + SizeAll(init), uuid)
  }

  /** The converted tree of `e` holds exactly the `Size(e)` ids drawn from `n` on. */
  lemma {:induction false} FlattenKeys(e: ExternalObject, parent: string, n: nat, uuid: nat -> string)
    ensures Flatten(e, parent, n, uuid).Keys == Image(uuid, n, n + Size(e))
    decreases e, 1
  {
    var id := uuid(n);
    FlattenAllKeys(e.children, id, n + 1, uuid);
    KeysCons(FlattenAll(e.children, id, n + 1, uuid), ConvertedObject(e, id, parent).(children := ChildIds(e.children, n + 1, uuid)),
             uuid, n, n + Size(e));
  }

  lemma {:induction false} FlattenAllKeys(es: seq<ExternalObject>, parent: string, n: nat, uuid: nat -> string)
    ensures FlattenAll(es, parent, n, uuid).Keys == Image(uuid, n, n + SizeAll(es))
    decreases es, 0
  {
    if es == [] {
      assert Image(uuid, n, n) == {};
    } else {
      var init, last := es[..|es| - 1], es[|es| - 1];
      var m := n + SizeAll(init);
      var c := Size(last);
      assert FlattenAll(es, parent, n, uuid) == FlattenAll(init, parent, n, uuid) + Flatten(last, parent, m, uuid);
      assert n + SizeAll(es) == m + c;
      FlattenAllKeys(init, parent, n, uuid);
      FlattenKeys(last, parent, m, uuid);
      KeysSplit(FlattenAll(init, parent, n, uuid), Flatten(last, parent, m, uuid), uuid, n, m, m + c);
    }
  }

  /** An id drawn before `lo` is not in the tree converted from `lo` on. */
  lemma EarlierIdNotInTree(e: ExternalObject, parent: string, lo: nat, k: nat, uuid: nat -> string)
    requires Injective(uuid) && k < lo
    ensures uuid(k) !in Flatten(e, parent, lo, uuid)
  {
    FlattenKeys(e, parent, lo, uuid);
    ImageDisjoint(uuid, k, k + 1, lo, lo + Size(e));
    assert uuid(k) in Image(uuid, k, k + 1);
  }

  /** The object map `convertObjects(top)` returns with the supply at `n`. */
  function ConvertedObjects(top: seq<ExternalObject>, n: nat, uuid: nat -> string): Objects {
    Attached(top, "root", RootObject, n, uuid)
  }

  /** One more converted child: its objects join the map and its id is pushed onto the owner's children. */
  lemma AttachStep(objects: Objects, es: seq<ExternalObject>, i: nat, owner: string, node: SceneObject, n: nat,
                   uuid: nat -> string)
    requires i < |es|
    requires owner !in Flatten(es[i], owner, n + SizeAll(es[..i]), uuid)
    ensures var m := n + SizeAll(es[..i]);
      var out := objects + Attached(es[..i], owner, node, n, uuid) + Flatten(es[i], owner, m, uuid);
      out[owner := out[owner].(children := out[owner].children + [uuid(m)])] == objects + Attached(es[..i + 1], owner, node, n, uuid)
    ensures SizeAll(es[..i + 1]) == SizeAll(es[..i]) + Size(es[i])
  {
    var m := n + SizeAll(es[..i]);
    var f0 := FlattenAll(es[..i], owner, n, uuid);
    var f := Flatten(es[i], owner, m, uuid);
    var k0 := ChildIds(es[..i], n, uuid);
    PrefixSnoc(es, i, owner, n, uuid);
    var n0 := node.(children := k0);
    assert Attached(es[..i], owner, node, n, uuid) == f0[owner := n0];
    assert Attached(es[..i + 1], owner, node, n, uuid) == (f0 + f)[owner := n0.(children := n0.children + [uuid(m)])];
    UpdateOverUnion(objects, f0, f, owner, n0, uuid(m));
  }

  /** The first `i + 1` objects convert to the first `i`, then the `i`-th. */
  lemma PrefixSnoc(es: seq<ExternalObject>, i: nat, parent: string, n: nat, uuid: nat -> string)
    requires i < |es|
    ensures var m := n + SizeAll(es[..i]);
      && FlattenAll(es[..i + 1], parent, n, uuid) == FlattenAll(es[..i], parent, n, uuid) + Flatten(es[i], parent, m, uuid)
      && ChildIds(es[..i + 1], n, uuid) == ChildIds(es[..i], n, uuid) + [uuid(m)]
      && SizeAll(es[..i + 1]) == SizeAll(es[..i]) + Size(es[i])
  {
    var prefix := es[..i + 1];
    assert prefix[..|prefix| - 1] == es[..i] && prefix[|prefix| - 1] == es[i];
  }

  /** Appending a child to a key the right operand does not hold commutes with the union. */
  lemma UpdateOverUnion(objects: Objects, f0: Objects, f: Objects, owner: string, n0: SceneObject, c: string)
    requires owner !in f
    ensures var out := objects + f0[owner := n0] + f;
      out[owner := out[owner].(children := out[owner].children + [c])]
        == objects + (f0 + f)[owner := n0.(children := n0.children + [c])]
  {
    var out := objects + f0[owner := n0] + f;
    assert out[owner] == n0;
  }

  /** The loop step of both conversions: `out` is the map before converting `es[i]`, `out1` the map after. */
  lemma AttachStepAfter(objects: Objects, es: seq<ExternalObject>, i: nat, owner: string, node: SceneObject, n: nat,
                        uuid: nat -> string, out: Objects, m: nat, childId: string, out1: Objects)
    requires i < |es| && m == n + SizeAll(es[..i])
    requires out == objects + Attached(es[..i], owner, node, n, uuid)
    requires owner !in Flatten(es[i], owner, m, uuid)
    requires out1 == out + Flatten(es[i], owner, m, uuid) && childId == uuid(m)
    ensures out1[owner := out1[owner].(children := out1[owner].children + [childId])]
      == objects + Attached(es[..i + 1], owner, node, n, uuid)
    ensures m + Size(es[i]) == n + SizeAll(es[..i + 1])
  {
    AttachStep(objects, es, i, owner, node, n, uuid);
  }

  // ---------------------------------------------------------------------------
  // The conversion
  // ---------------------------------------------------------------------------

  /** No converted object is stored under the root's id. */
  lemma RootNotInTree(e: ExternalObject, lo: nat, uuid: nat -> string)
    requires forall k :: uuid(k) != "root"
    ensures "root" !in Flatten(e, "root", lo, uuid)
  {
    FlattenKeys(e, "root", lo, uuid);
  }

  /**
   * `convertObjectRecursive(e, parentId, objects)`: store the converted object
   * under the next id, then convert each child under it and push the child's id.
   */
  method ConvertObjectRecursive(e: ExternalObject, parentId: string, objects: Objects, next: nat, uuid: nat -> string)
    returns (id: string, out: Objects, after: nat)
    requires Injective(uuid)
    ensures id == uuid(next) && after == next + Size(e)
    ensures out == objects + Flatten(e, parentId, next, uuid)
    decreases e
  {
    id := uuid(next);
    var node := ConvertedObject(e, id, parentId);
    out := objects[id := node];
    after := next + 1;
    var cs := e.children;
    var i := 0;
    AttachStart(objects, cs, id, node, next + 1, uuid);
    while i < |cs|
      invariant i <= |cs|
      invariant after == next + 1 + SizeAll(cs[..i])
      invariant out == objects + Attached(cs[..i], id, node, next + 1, uuid)
    {
      EarlierIdNotInTree(cs[i], id, after, next, uuid);
      var childId, out1, after1 := ConvertObjectRecursive(cs[i], id, out, after, uuid);
      AttachStepAfter(objects, cs, i, id, node, next + 1, uuid, out, after, childId, out1);
      out := out1[id := out1[id].(children := out1[id].children + [childId])];
      after := after1;
      i := i + 1;
    }
    FlattenUnfold(e, parentId, next, uuid, i);
  }

  /** Before any child, the owner alone is attached, with no children. */
  lemma AttachStart(objects: Objects, es: seq<ExternalObject>, owner: string, node: SceneObject, n: nat, uuid: nat -> string)
    requires node.children == []
    ensures objects[owner := node] == objects + Attached(es[..0], owner, node, n, uuid)
    ensures SizeAll(es[..0]) == 0
  {
    assert es[..0] == [];
  }

  /** After all `i` children of `e`, the attached objects are the ones `Flatten` describes. */
  lemma FlattenUnfold(e: ExternalObject, parent: string, n: nat, uuid: nat -> string, i: nat)
    requires i == |e.children|
    ensures Flatten(e, parent, n, uuid)
      == Attached(e.children[..i], uuid(n), ConvertedObject(e, uuid(n), parent), n + 1, uuid)
    ensures Size(e) == 1 + SizeAll(e.children[..i])
  {
    assert e.children[..i] == e.children;
  }

  /** `convertObjects(top, 'root')`: the root, then each top-level object converted under it. */
  method ConvertObjects(top: seq<ExternalObject>, next: nat, uuid: nat -> string) returns (objects: Objects, after: nat)
    requires Injective(uuid) && forall k :: uuid(k) != "root"
    ensures objects == ConvertedObjects(top, next, uuid)
    ensures after == next + SizeAll(top)
  {
    objects := map[];
    objects := objects["root" := RootObject];
    after := next;
    var i := 0;
    AttachStart(map[], top, "root", RootObject, next, uuid);
    while i < |top|
      invariant i <= |top|
      invariant after == next + SizeAll(top[..i])
      invariant objects == map[] + Attached(top[..i], "root", RootObject, next, uuid)
    {
      RootNotInTree(top[i], after, uuid);
      var id, out, after1 := ConvertObjectRecursive(top[i], "root", objects, after, uuid);
      AttachStepAfter(map[], top, i, "root", RootObject, next, uuid, objects, after, id, out);
      objects := out["root" := out["root"].(children := out["root"].children + [id])];
      after := after1;
      i := i + 1;
    }
    ConvertedUnfold(top, next, uuid, i);
  }

  /** After all `i` top-level objects, the attached objects are the converted ones. */
  lemma ConvertedUnfold(top: seq<ExternalObject>, n: nat, uuid: nat -> string, i: nat)
    requires i == |top|
    ensures ConvertedObjects(top, n, uuid) == map[] + Attached(top[..i], "root", RootObject, n, uuid)
    ensures SizeAll(top) == SizeAll(top[..i])
  {
    assert top[..i] == top;
  }

  // ---------------------------------------------------------------------------
  // The converted objects form a tree
  // ---------------------------------------------------------------------------

  /** What the converter needs of the uuid supply: distinct, non-empty ids, none of them `root`. */
  ghost predicate IdSupply(uuid: nat -> string) {
    Injective(uuid) && forall k :: uuid(k) != "" && uuid(k) != "root"
  }

  /** `rank` names the call among `lo` up to `hi` that drew each id of `m`. */
  ghost predicate DrawnBetween(m: Objects, rank: map<string, nat>, lo: nat, hi: nat, uuid: nat -> string) {
    rank.Keys == m.Keys && forall x :: x in m ==> lo <= rank[x] < hi && uuid(rank[x]) == x
  }

  /** Every object is stored under its own id and lists no child twice. */
  ghost predicate WellStored(m: Objects) {
    forall x :: x in m ==> m[x].id == x && NoDup(m[x].children)
  }

  /** `kids` are distinct stored objects that name `parent`. */
  ghost predicate KidsOf(m: Objects, parent: string, kids: seq<string>) {
    NoDup(kids) && forall x :: x in kids ==> x in m && m[x].parentId == Some(parent)
  }

  /** Every object but the top-level ones is listed by its parent. */
  ghost predicate OthersListed(m: Objects, kids: seq<string>) {
    forall x {:trigger ListedByParent(m, x)} :: x in m && x !in kids ==> ListedByParent(m, x)
  }

  /** `c` is listed among the children of the stored object `a`. */
  ghost predicate IsChild(m: Objects, a: string, c: string) {
    a in m && c in m[a].children
  }

  /** Every child link points back to a parent that ranks lower. */
  ghost predicate LinksBack(m: Objects, rank: map<string, nat>)
    requires rank.Keys == m.Keys
  {
    forall a, c {:trigger IsChild(m, a, c)} :: IsChild(m, a, c) ==> c in m && m[c].parentId == Some(a) && rank[a] < rank[c]
  }

  /**
   * The shape of objects converted under `parent` from the calls `lo` up to `hi`:
   * `rank` names the call that drew each id, `kids` are the top-level ids, the
   * others are listed by their parent, and every child link points back to a
   * parent drawn earlier.
   */
  ghost predicate Forest(m: Objects, rank: map<string, nat>, parent: string, kids: seq<string>, lo: nat, hi: nat,
                         uuid: nat -> string)
  {
    DrawnBetween(m, rank, lo, hi, uuid) && WellStored(m) && KidsOf(m, parent, kids) && OthersListed(m, kids)
    && LinksBack(m, rank)
  }

  /** Ids drawn by separate runs of calls are distinct. */
  lemma DrawnDisjoint(m1: Objects, r1: map<string, nat>, m2: Objects, r2: map<string, nat>,
                      lo: nat, mid: nat, hi: nat, uuid: nat -> string)
    requires Injective(uuid) && lo <= mid <= hi
    requires DrawnBetween(m1, r1, lo, mid, uuid) && DrawnBetween(m2, r2, mid, hi, uuid)
    ensures m1.Keys !! m2.Keys
    ensures DrawnBetween(m1 + m2, r1 + r2, lo, hi, uuid)
  {
    assert m1.Keys !! m2.Keys;
    var m, r := m1 + m2, r1 + r2;
    assert r.Keys == m.Keys;
    forall x | x in m ensures lo <= r[x] < hi && uuid(r[x]) == x {
      if x in m2 {
        assert r[x] == r2[x];
      } else {
        assert r[x] == r1[x];
      }
    }
  }

  lemma OthersListedUnion(m1: Objects, k1: seq<string>, m2: Objects, k2: seq<string>)
    requires m1.Keys !! m2.Keys && OthersListed(m1, k1) && OthersListed(m2, k2)
    ensures OthersListed(m1 + m2, k1 + k2)
  {
    var m := m1 + m2;
    forall x | x in m && x !in k1 + k2 ensures ListedByParent(m, x) {
      if x in m1 {
        assert ListedByParent(m1, x);
        assert m[x] == m1[x] && m[m1[x].parentId.value] == m1[m1[x].parentId.value];
      } else {
        assert ListedByParent(m2, x);
      }
    }
  }

  lemma LinksBackUnion(m1: Objects, r1: map<string, nat>, m2: Objects, r2: map<string, nat>)
    requires m1.Keys !! m2.Keys && r1.Keys == m1.Keys && r2.Keys == m2.Keys
    requires LinksBack(m1, r1) && LinksBack(m2, r2)
    ensures LinksBack(m1 + m2, r1 + r2)
  {
    var m := m1 + m2;
    forall a, c | IsChild(m, a, c)
      ensures c in m && m[c].parentId == Some(a) && (r1 + r2)[a] < (r1 + r2)[c]
    {
      if a in m1 {
        assert m[a] == m1[a] && IsChild(m1, a, c);
      } else {
        assert m[a] == m2[a] && IsChild(m2, a, c);
      }
    }
  }

  /** Two forests under one parent from consecutive runs of calls make one. */
  lemma ForestUnion(m1: Objects, r1: map<string, nat>, k1: seq<string>, m2: Objects, r2: map<string, nat>,
                    k2: seq<string>, parent: string, lo: nat, mid: nat, hi: nat, uuid: nat -> string,
                    both: Objects, kids: seq<string>)
    requires Injective(uuid) && lo <= mid <= hi
    requires Forest(m1, r1, parent, k1, lo, mid, uuid) && Forest(m2, r2, parent, k2, mid, hi, uuid)
    requires both == m1 + m2 && kids == k1 + k2
    ensures Forest(both, r1 + r2, parent, kids, lo, hi, uuid)
  {
    DrawnDisjoint(m1, r1, m2, r2, lo, mid, hi, uuid);
    WellStoredUnion(m1, m2);
    KidsOfUnion(m1, k1, m2, k2, parent);
    OthersListedUnion(m1, k1, m2, k2);
    LinksBackUnion(m1, r1, m2, r2);
  }

  lemma WellStoredUnion(m1: Objects, m2: Objects)
    requires WellStored(m1) && WellStored(m2)
    ensures WellStored(m1 + m2)
  {
    var m := m1 + m2;
    forall x | x in m ensures m[x].id == x && NoDup(m[x].children) {
      if x !in m2 {
        assert m[x] == m1[x];
      }
    }
  }

  lemma KidsOfUnion(m1: Objects, k1: seq<string>, m2: Objects, k2: seq<string>, parent: string)
    requires m1.Keys !! m2.Keys && KidsOf(m1, parent, k1) && KidsOf(m2, parent, k2)
    ensures KidsOf(m1 + m2, parent, k1 + k2)
  {
    var m := m1 + m2;
    DisjointConcat(k1, k2, m1.Keys, m2.Keys);
    forall x | x in k1 + k2 ensures x in m && m[x].parentId == Some(parent) {
      if x in k1 {
        assert m[x] == m1[x];
      }
    }
  }

  /** Sequences of distinct ids drawn from disjoint sets concatenate without repeats. */
  lemma DisjointConcat(a: seq<string>, b: seq<string>, sa: set<string>, sb: set<string>)
    requires NoDup(a) && NoDup(b) && sa !! sb
    requires forall x :: x in a ==> x in sa
    requires forall x :: x in b ==> x in sb
    ensures NoDup(a + b)
  {
    var c := a + b;
    forall i, j | 0 <= i < j < |c| ensures c[i] != c[j] {
      if j < |a| {
        assert c[i] == a[i] && c[j] == a[j];
      } else if i >= |a| {
        assert c[i] == b[i - |a|] && c[j] == b[j - |a|];
      } else {
        assert c[i] in sa && c[j] in sb;
      }
    }
  }

  /** Adding the owner of the top-level objects on top of their forest, under a fresh id. */
  lemma ForestUnderNode(sub: Objects, r1: map<string, nat>, kids: seq<string>, node: SceneObject, parent: string,
                        n: nat, hi: nat, uuid: nat -> string)
    requires Injective(uuid) && uuid(n) != "" && n < hi
    requires Forest(sub, r1, uuid(n), kids, n + 1, hi, uuid)
    requires node.id == uuid(n) && node.parentId == Some(parent) && node.children == kids
    ensures Forest(sub[uuid(n) := node], r1[uuid(n) := n], parent, [uuid(n)], n, hi, uuid)
  {
    var id := uuid(n);
    var m := sub[id := node];
    var rank := r1[id := n];
    assert id !in sub;
    forall x | x in m ensures n <= rank[x] < hi && uuid(rank[x]) == x {
      if x != id {
        assert rank[x] == r1[x];
      }
    }
    assert WellStored(m);
    assert KidsOf(m, parent, [id]);
    forall x | x in m && x !in [id] ensures ListedByParent(m, x) {
      assert x in sub && m[x] == sub[x];
      if x !in kids {
        assert ListedByParent(sub, x);
      }
    }
    forall a, c | IsChild(m, a, c) ensures c in m && m[c].parentId == Some(a) && rank[a] < rank[c] {
      if a != id {
        assert m[a] == sub[a] && IsChild(sub, a, c);
      } else {
        assert c in kids && c in sub && rank[c] == r1[c];
      }
    }
  }

  /** The objects converted from `e` form a forest whose one top-level id is `e`'s own. */
  lemma {:induction false} FlattenForest(e: ExternalObject, parent: string, n: nat, uuid: nat -> string)
    returns (rank: map<string, nat>)
    requires IdSupply(uuid)
    ensures Forest(Flatten(e, parent, n, uuid), rank, parent, [uuid(n)], n, n + Size(e), uuid)
    decreases e, 1
  {
    var id := uuid(n);
    var kids := ChildIds(e.children, n + 1, uuid);
    var r1 := FlattenAllForest(e.children, id, n + 1, uuid);
    ForestUnderNode(FlattenAll(e.children, id, n + 1, uuid), r1, kids, ConvertedObject(e, id, parent).(children := kids),
                    parent, n, n + Size(e), uuid);
    rank := r1[id := n];
  }

  /** The objects converted from `es` form a forest whose top-level ids are `ChildIds(es)`. */
  lemma {:induction false} FlattenAllForest(es: seq<ExternalObject>, parent: string, n: nat, uuid: nat -> string)
    returns (rank: map<string, nat>)
    requires IdSupply(uuid)
    ensures Forest(FlattenAll(es, parent, n, uuid), rank, parent, ChildIds(es, n, uuid), n, n + SizeAll(es), uuid)
    decreases es, 0
  {
    if es == [] {
      rank := map[];
    } else {
      var init := es[..|es| - 1];
      var m := n + SizeAll(init);
      var r1 := FlattenAllForest(init, parent, n, uuid);
      var r2 := FlattenForest(es[|es| - 1], parent, m, uuid);
      var f1, f2 := FlattenAll(init, parent, n, uuid), Flatten(es[|es| - 1], parent, m, uuid);
      var k1 := ChildIds(init, n, uuid);
      ForestUnion(f1, r1, k1, f2, r2, [uuid(m)], parent, n, m, n + SizeAll(es), uuid,
                  FlattenAll(es, parent, n, uuid), ChildIds(es, n, uuid));
      rank := r1 + r2;
    }
  }

  /** The root id is not among the converted ids. */
  lemma RootNotInForest(f: Objects, r: map<string, nat>, kids: seq<string>, lo: nat, hi: nat, uuid: nat -> string)
    requires forall k :: uuid(k) != "root"
    requires Forest(f, r, "root", kids, lo, hi, uuid)
    ensures "root" !in f
  {
  }

  /** A forest under `root` with the root object on top: every object but the root is listed by its parent. */
  lemma ForestUnderRootListed(f: Objects, r: map<string, nat>, kids: seq<string>, lo: nat, hi: nat, uuid: nat -> string,
                              objs: Objects)
    requires "root" !in f
    requires Forest(f, r, "root", kids, lo, hi, uuid)
    requires objs == f["root" := RootObject.(children := kids)]
    ensures RootIsParentless(objs, "root") && StoredUnderOwnId(objs) && ChildListsDistinct(objs)
    ensures NonRootsListed(objs, "root")
  {
    assert forall x :: x in f ==> objs[x] == f[x];
    forall k | k in objs && k != "root" ensures ListedByParent(objs, k) {
      if k !in kids {
        assert ListedByParent(f, k);
      }
    }
  }

  /** A forest under `root` with the root object on top: every listed child names its lister. */
  lemma ForestUnderRootPointsBack(f: Objects, r: map<string, nat>, kids: seq<string>, lo: nat, hi: nat,
                                  uuid: nat -> string, objs: Objects)
    requires "root" !in f
    requires Forest(f, r, "root", kids, lo, hi, uuid)
    requires objs == f["root" := RootObject.(children := kids)]
    ensures ChildrenPointBack(objs)
  {
    forall a, c | a in objs && c in objs[a].children ensures c in objs && objs[c].parentId == Some(a) {
      if a != "root" {
        assert objs[a] == f[a] && IsChild(f, a, c);
      }
    }
  }

  /** A forest under `root` with the root object on top has no cycles: the root ranks first. */
  lemma ForestUnderRootAcyclic(f: Objects, r: map<string, nat>, kids: seq<string>, lo: nat, hi: nat, uuid: nat -> string,
                               objs: Objects)
    requires "root" !in f
    requires Forest(f, r, "root", kids, lo, hi, uuid)
    requires objs == f["root" := RootObject.(children := kids)]
    ensures Acyclic(objs)
  {
    var rank := map x | x in objs :: if x == "root" then 0 else r[x] + 1;
    forall a, c | a in objs && c in objs && c in objs[a].children ensures rank[a] < rank[c] {
      if a != "root" {
        assert objs[a] == f[a] && IsChild(f, a, c);
      }
    }
    assert Ranked(objs, rank);
  }

  /**
   * `convertObjects` builds a consistent tree under `root`: a parentless root,
   * every converted object listed by the parent it names and pointing back to
   * it, no cycles, and one object per external object besides the root.
   */
  lemma ConvertedTree(top: seq<ExternalObject>, n: nat, uuid: nat -> string)
    requires IdSupply(uuid)
    ensures TreeConsistent(ConvertedObjects(top, n, uuid), "root")
    ensures |ConvertedObjects(top, n, uuid)| == 1 + SizeAll(top)
  {
    var f := FlattenAll(top, "root", n, uuid);
    var kids := ChildIds(top, n, uuid);
    var r := FlattenAllForest(top, "root", n, uuid);
    var objs := ConvertedObjects(top, n, uuid);
    RootNotInForest(f, r, kids, n, n + SizeAll(top), uuid);
    ForestUnderRootListed(f, r, kids, n, n + SizeAll(top), uuid, objs);
    ForestUnderRootPointsBack(f, r, kids, n, n + SizeAll(top), uuid, objs);
    ForestUnderRootAcyclic(f, r, kids, n, n + SizeAll(top), uuid, objs);
    ConvertedCount(top, n, uuid);
  }

  /** One object per external object, plus the root. */
  lemma ConvertedCount(top: seq<ExternalObject>, n: nat, uuid: nat -> string)
    requires IdSupply(uuid)
    ensures |ConvertedObjects(top, n, uuid)| == 1 + SizeAll(top)
  {
    RootNotFlattened(top, n, uuid);
    FlattenedCount(top, n, uuid);
    AddFreshKey(FlattenAll(top, "root", n, uuid), "root", RootObject.(children := ChildIds(top, n, uuid)));
  }

  lemma RootNotFlattened(top: seq<ExternalObject>, n: nat, uuid: nat -> string)
    requires forall k :: uuid(k) != "root"
    ensures "root" !in FlattenAll(top, "root", n, uuid)
  {
    FlattenAllKeys(top, "root", n, uuid);
    RootNotInImage(uuid, n, n + SizeAll(top));
  }

  lemma FlattenedCount(top: seq<ExternalObject>, n: nat, uuid: nat -> string)
    requires Injective(uuid)
    ensures |FlattenAll(top, "root", n, uuid)| == SizeAll(top)
  {
    var f := FlattenAll(top, "root", n, uuid);
    FlattenAllKeys(top, "root", n, uuid);
    ImageSize(uuid, n, n + SizeAll(top));
    assert |f| == |f.Keys|;
  }

  lemma AddFreshKey(m: Objects, k: string, v: SceneObject)
    requires k !in m
    ensures |m[k := v]| == |m| + 1
  {
  }

  lemma RootNotInImage(uuid: nat -> string, lo: nat, hi: nat)
    requires forall k :: uuid(k) != "root"
    ensures "root" !in Image(uuid, lo, hi)
  {
  }

  // ---------------------------------------------------------------------------
  // Assets
  // ---------------------------------------------------------------------------

  /** `obj.userData?.fileInfo?.url` is present and non-empty. */
  predicate HasUrl(e: ExternalObject) {
    e.userData.Some? && e.userData.value.fileInfo.Some? && e.userData.value.fileInfo.value.url != ""
  }

  /** The number of objects with a file url in the tree of `e`. */
  function UrlCount(e: ExternalObject): nat
    decreases e
  {
    (if HasUrl(e) then 1 else 0) + UrlCountAll(e.children)
  }

  function UrlCountAll(es: seq<ExternalObject>): nat
    decreases es
  {
    if es == [] then 0 else UrlCountAll(es[..|es| - 1]) + UrlCount(es[|es| - 1])
  }

  /** The asset reference recorded for an object with a file url. */
  function AssetOf(e: ExternalObject, id: string): AssetRef
    requires HasUrl(e)
  {
    AssetRef(id, OrDefault(e.name, "Asset"), "model", e.userData.value.fileInfo.value.url, None)
  }

  /** The asset recorded for `e` itself, if it has a file url. */
  function OwnAsset(e: ExternalObject, n: nat, uuid: nat -> string): map<string, AssetRef> {
    if HasUrl(e) then map[uuid(n) := AssetOf(e, uuid(n))] else map[]
  }

  /** The assets `extractFromObject(e)` records with the supply at `n`: its own first, then its children's. */
  function AssetsOf(e: ExternalObject, n: nat, uuid: nat -> string): map<string, AssetRef>
    decreases e, 1
  {
    OwnAsset(e, n, uuid) + AssetsOfAll(e.children, n + (if HasUrl(e) then 1 else 0), uuid)
  }

  function AssetsOfAll(es: seq<ExternalObject>, n: nat, uuid: nat -> string): map<string, AssetRef>
    decreases es, 0
  {
    if es == [] then map[]
    else
      var init := es[..|es| - 1];
      AssetsOfAll(init, n, uuid) + AssetsOf(es[|es| - 1], n + UrlCountAll(init), uuid)
  }

  /** One recorded asset per object with a file url, under the ids drawn from `n` on. */
  lemma {:induction false} AssetKeys(e: ExternalObject, n: nat, uuid: nat -> string)
    ensures AssetsOf(e, n, uuid).Keys == Image(uuid, n, n + UrlCount(e))
    decreases e, 1
  {
    var k := if HasUrl(e) then 1 else 0;
    var c := UrlCountAll(e.children);
    AssetKeysAll(e.children, n + k, uuid);
    assert OwnAsset(e, n, uuid).Keys == Image(uuid, n, n + k) by {
      assert Image(uuid, n, n) == {};
      assert Image(uuid, n, n + 1) == {uuid(n)};
    }
    KeysSplit(OwnAsset(e, n, uuid), AssetsOfAll(e.children, n + k, uuid), uuid, n, n + k, n + k + c);
  }

  lemma {:induction false} AssetKeysAll(es: seq<ExternalObject>, n: nat, uuid: nat -> string)
    ensures AssetsOfAll(es, n, uuid).Keys == Image(uuid, n, n + UrlCountAll(es))
    decreases es, 0
  {
    if es == [] {
      assert Image(uuid, n, n) == {};
    } else {
      var init, last := es[..|es| - 1], es[|es| - 1];
      var m := n + UrlCountAll(init);
      var c := UrlCount(last);
      assert AssetsOfAll(es, n, uuid) == AssetsOfAll(init, n, uuid) + AssetsOf(last, m, uuid);
      assert n + UrlCountAll(es) == m + c;
      AssetKeysAll(init, n, uuid);
      AssetKeys(last, m, uuid);
      KeysSplit(AssetsOfAll(init, n, uuid), AssetsOf(last, m, uuid), uuid, n, m, m + c);
    }
  }

  /** Every recorded asset is a model stored under its own id, pointing at a non-empty url. */
  lemma {:induction false} AssetsAreModels(e: ExternalObject, n: nat, uuid: nat -> string)
    ensures forall id :: id in AssetsOf(e, n, uuid) ==>
      AssetsOf(e, n, uuid)[id].id == id && AssetsOf(e, n, uuid)[id].kind == "model" && AssetsOf(e, n, uuid)[id].path != ""
    decreases e, 1
  {
    AssetsAllAreModels(e.children, n + (if HasUrl(e) then 1 else 0), uuid);
  }

  lemma {:induction false} AssetsAllAreModels(es: seq<ExternalObject>, n: nat, uuid: nat -> string)
    ensures forall id :: id in AssetsOfAll(es, n, uuid) ==>
      AssetsOfAll(es, n, uuid)[id].id == id && AssetsOfAll(es, n, uuid)[id].kind == "model"
      && AssetsOfAll(es, n, uuid)[id].path != ""
    decreases es, 0
  {
    if es != [] {
      var init := es[..|es| - 1];
      AssetsAllAreModels(init, n, uuid);
      AssetsAreModels(es[|es| - 1], n + UrlCountAll(init), uuid);
    }
  }

  /** One more visited child: `out` holds the assets before visiting `es[i]`, `out1` those after. */
  lemma AssetStep(base: map<string, AssetRef>, es: seq<ExternalObject>, i: nat, n: nat, uuid: nat -> string,
                  out: map<string, AssetRef>, m: nat, out1: map<string, AssetRef>, m1: nat)
    requires i < |es|
    requires out == base + AssetsOfAll(es[..i], n, uuid) && m == n + UrlCountAll(es[..i])
    requires out1 == out + AssetsOf(es[i], m, uuid) && m1 == m + UrlCount(es[i])
    ensures out1 == base + AssetsOfAll(es[..i + 1], n, uuid)
    ensures m1 == n + UrlCountAll(es[..i + 1])
  {
    var prefix := es[..i + 1];
    assert prefix[..|prefix| - 1] == es[..i] && prefix[|prefix| - 1] == es[i];
    assert AssetsOfAll(prefix, n, uuid) == AssetsOfAll(es[..i], n, uuid) + AssetsOf(es[i], m, uuid);
    UnionAssoc(base, AssetsOfAll(es[..i], n, uuid), AssetsOf(es[i], m, uuid));
  }

  /**
   * `extractFromObject(e)`: record an asset for `e` when it has a file url,
   * then visit its children in order.
   */
  method ExtractFromObject(e: ExternalObject, assets: map<string, AssetRef>, next: nat, uuid: nat -> string)
    returns (out: map<string, AssetRef>, after: nat)
    ensures out == assets + AssetsOf(e, next, uuid)
    ensures after == next + UrlCount(e)
    decreases e, 1
  {
    out := assets;
    after := next;
    if HasUrl(e) {
      var id := uuid(after);
      out := out[id := AssetOf(e, id)];
      after := after + 1;
    }
    assert out == assets + OwnAsset(e, next, uuid);
    out, after := ExtractFromEach(e.children, out, after, uuid);
    UnionAssoc(assets, OwnAsset(e, next, uuid), AssetsOfAll(e.children, next + (if HasUrl(e) then 1 else 0), uuid));
  }

  /** `es.forEach(extractFromObject)`. */
  method ExtractFromEach(es: seq<ExternalObject>, assets: map<string, AssetRef>, next: nat, uuid: nat -> string)
    returns (out: map<string, AssetRef>, after: nat)
    ensures out == assets + AssetsOfAll(es, next, uuid)
    ensures after == next + UrlCountAll(es)
    decreases es, 0
  {
    out := assets;
    after := next;
    var i := 0;
    assert out == assets + AssetsOfAll(es[..0], next, uuid);
    while i < |es|
      invariant i <= |es|
      invariant after == next + UrlCountAll(es[..i])
      invariant out == assets + AssetsOfAll(es[..i], next, uuid)
    {
      var out1, after1 := ExtractFromObject(es[i], out, after, uuid);
      AssetStep(assets, es, i, next, uuid, out, after, out1, after1);
      out, after := out1, after1;
      i := i + 1;
    }
    assert es[..i] == es;
  }

  lemma UnionAssoc<K, V>(a: map<K, V>, b: map<K, V>, c: map<K, V>)
    ensures a + b + c == a + (b + c)
  {
  }

  /** `extractAssets(top)`: visit the top-level objects in order, starting from no assets. */
  method ExtractAssets(top: seq<ExternalObject>, next: nat, uuid: nat -> string)
    returns (assets: map<string, AssetRef>, after: nat)
    ensures assets == AssetsOfAll(top, next, uuid)
    ensures after == next + UrlCountAll(top)
  {
    assets, after := ExtractFromEach(top, map[], next, uuid);
    assert map[] + AssetsOfAll(top, next, uuid) == AssetsOfAll(top, next, uuid);
  }

  /** With distinct ids, one asset per object with a file url. */
  lemma AssetCount(top: seq<ExternalObject>, n: nat, uuid: nat -> string)
    requires Injective(uuid)
    ensures |AssetsOfAll(top, n, uuid)| == UrlCountAll(top)
  {
    var c := UrlCountAll(top);
    AssetKeysAll(top, n, uuid);
    ImageSize(uuid, n, n + c);
    SizeOfKeys(AssetsOfAll(top, n, uuid), Image(uuid, n, n + c), c);
  }

  lemma SizeOfKeys<K, V>(m: map<K, V>, keys: set<K>, c: nat)
    requires m.Keys == keys && |keys| == c
    ensures |m| == c
  {
    assert |m| == |m.Keys|;
  }

  // ---------------------------------------------------------------------------
  // The whole scene
  // ---------------------------------------------------------------------------

  /**
   * `convert(externalScene)`: draw the scene id, convert the objects under
   * `root`, then record the assets; `created` and `updated` are the two
   * clock readings taken for the timestamps, in that order.
   */
  method Convert(ext: ExternalScene, uuid: nat -> string, created: string, updated: string) returns (scene: Scene)
    requires IdSupply(uuid)
    ensures scene.id == uuid(0) && scene.root == "root" && scene.version == "1.0.0"
    ensures scene.name == OrDefault(ext.sceneName, "Imported Scene")
    ensures scene.createdAt == created && scene.updatedAt == updated
    ensures scene.objects == ConvertedObjects(TopLevel(ext), 1, uuid)
    ensures TreeConsistent(scene.objects, "root")
    ensures |scene.objects| == 1 + SizeAll(TopLevel(ext))
    ensures scene.objects["root"].children == ChildIds(TopLevel(ext), 1, uuid)
    ensures scene.settings == ConvertSettings(ext.viewer)
    ensures scene.assets == AssetsOfAll(TopLevel(ext), 1 + SizeAll(TopLevel(ext)), uuid)
    ensures |scene.assets| == UrlCountAll(TopLevel(ext))
    ensures scene.materials == None
  {
    var sceneId := uuid(0);
    var top := TopLevel(ext);
    var objects, next := ConvertObjects(top, 1, uuid);
    var settings := ConvertSettings(ext.viewer);
    var assets, _ := ExtractAssets(top, next, uuid);
    ConvertedTree(top, 1, uuid);
    AssetCount(top, next, uuid);
    scene := Scene(sceneId, OrDefault(ext.sceneName, "Imported Scene"), "1.0.0", created, updated, "root",
                   objects, assets, None, settings);
  }
}
