/**
 * The scene data model shared by both scene stores, the commands, the
 * converter and the scene factory: objects held in a flat map from id to
 * object, each with a nullable parent id and an ordered list of child ids.
 */
module SceneModel {
  import opened Wrappers
  import opened Values

  datatype ObjectType = Group | Mesh | Light | Camera | Twin

  datatype Vec3 = Vec3(x: real, y: real, z: real)

  const Origin := Vec3(0.0, 0.0, 0.0)
  const UnitScale := Vec3(1.0, 1.0, 1.0)

  datatype Transform = Transform(position: Vec3, rotation: Vec3, scale: Vec3)

  /** Position and rotation at zero, scale one. */
  const IdentityTransform := Transform(Origin, Origin, UnitScale)

  /**
   * A scene object. `parentId == None` is JavaScript `null`; `components == None`
   * is an object without a `components` record.
   */
  datatype SceneObject = SceneObject(
    id: string,
    name: string,
    kind: ObjectType,
    parentId: Option<string>,
    children: seq<string>,
    visible: bool,
    locked: bool,
    transform: Transform,
    components: Option<Record>)

  /** A parent id the stores follow: present and not the empty string (JavaScript truthiness). */
  predicate Present(p: Option<string>) {
    p.Some? && p.value != []
  }

  /** `Partial<SceneObject>`: the fields a caller supplies; `None` is a field left out. */
  datatype ObjectPatch = ObjectPatch(
    id: Option<string>,
    name: Option<string>,
    kind: Option<ObjectType>,
    parentId: Option<Option<string>>,
    children: Option<seq<string>>,
    visible: Option<bool>,
    locked: Option<bool>,
    transform: Option<Transform>,
    components: Option<Record>)

  const EmptyPatch := ObjectPatch(None, None, None, None, None, None, None, None, None)

  function Pick<T>(o: Option<T>, otherwise: T): T {
    match o
    case Some(v) => v
    case None => otherwise
  }

  /** `{...o, ...p}` and `Object.assign(o, p)`: every supplied field wins. */
  function Overlay(o: SceneObject, p: ObjectPatch): SceneObject {
    SceneObject(
      Pick(p.id, o.id), Pick(p.name, o.name), Pick(p.kind, o.kind),
      Pick(p.parentId, o.parentId), Pick(p.children, o.children),
      Pick(p.visible, o.visible), Pick(p.locked, o.locked),
      Pick(p.transform, o.transform),
      if p.components.Some? then p.components else o.components)
  }

  /** `Partial<TransformComponent>`. */
  datatype TransformPatch = TransformPatch(position: Option<Vec3>, rotation: Option<Vec3>, scale: Option<Vec3>)

  /** `{...t, ...p}` on a transform. */
  function MergeTransform(t: Transform, p: TransformPatch): Transform {
    Transform(Pick(p.position, t.position), Pick(p.rotation, t.rotation), Pick(p.scale, t.scale))
  }

  /** A serialisable material: a three.js material class name and its props. */
  datatype MaterialSpec = MaterialSpec(kind: string, props: Record)

  /** The shape a material spec takes inside a mesh component. */
  function EncodeMaterial(spec: MaterialSpec): (v: Value)
    ensures v.Obj? && DecodeMaterial(v) == Some(spec)
  {
    Obj(map["type" := Str(spec.kind), "props" := Obj(spec.props)])
  }

  /** A stored material value read back as a spec; anything not of that shape reads as absent. */
  function DecodeMaterial(v: Value): Option<MaterialSpec> {
    var t := Get(v, "type");
    var p := Get(v, "props");
    if t.Str? && p.Obj? then Some(MaterialSpec(t.s, p.fields)) else None
  }

  /** `obj.components?.mesh`. */
  function MeshOf(o: SceneObject): Value {
    match o.components
    case Some(c) => if "mesh" in c then c["mesh"] else Undefined
    case None => Undefined
  }

  /** `obj.components?.mesh?.material`, read as a spec. */
  function MaterialOf(o: SceneObject): Option<MaterialSpec> {
    DecodeMaterial(Get(MeshOf(o), "material"))
  }

  datatype Settings = Settings(environment: string, gridVisible: bool, backgroundColor: string)

  const DefaultSettings := Settings("default", true, "#1a1a1a")

  datatype AssetRef = AssetRef(id: string, name: string, kind: string, path: string, assetDbId: Option<int>)

  datatype MaterialRef = MaterialRef(id: string, name: string, path: string, materialDbId: Option<int>)

  datatype Scene = Scene(
    id: string,
    name: string,
    version: string,
    createdAt: string,
    updatedAt: string,
    root: string,
    objects: map<string, SceneObject>,
    assets: map<string, AssetRef>,
    materials: Option<map<string, MaterialRef>>,
    settings: Settings)

  /** Import bookkeeping kept beside the scene. */
  datatype ImportProgress = ImportProgress(isImporting: bool, percentage: real, currentTask: string)

  const IdleProgress := ImportProgress(false, 0.0, "")

  datatype ImportError = ImportError(objectName: string, error: string)

  /** `Partial<ImportProgress>`. */
  datatype ProgressPatch = ProgressPatch(isImporting: Option<bool>, percentage: Option<real>, currentTask: Option<string>)

  /** `{...progress, ...patch}`. */
  function MergeProgress(p: ImportProgress, q: ProgressPatch): ImportProgress {
    ImportProgress(Pick(q.isImporting, p.isImporting), Pick(q.percentage, p.percentage), Pick(q.currentTask, p.currentTask))
  }
}
