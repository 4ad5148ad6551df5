/** The editor-state types both editor stores declare. */
module EditorTypes {
  import opened Wrappers
  import opened SceneModel

  datatype EditorMode = SelectMode | TranslateMode | RotateMode | ScaleMode

  datatype RenderMode = Shaded | Wireframe | Hybrid

  datatype Gizmo = TranslateGizmo | RotateGizmo | ScaleGizmo

  /** Where the viewport camera sits and what it looks at. */
  datatype CameraState = CameraState(position: Vec3, target: Vec3)

  /** The camera of a fresh editor: at (10, 10, 10), looking at the origin. */
  const InitialCamera := CameraState(Vec3(10.0, 10.0, 10.0), Origin)

  /** `Partial<CameraState>`. */
  datatype CameraPatch = CameraPatch(position: Option<Vec3>, target: Option<Vec3>)

  /** `{...camera, ...update}`: a supplied field wins, a missing one is kept. */
  function MergeCamera(c: CameraState, p: CameraPatch): (r: CameraState)
    ensures r.position == (if p.position.Some? then p.position.value else c.position)
    ensures r.target == (if p.target.Some? then p.target.value else c.target)
  {
    CameraState(p.position.GetOr(c.position), p.target.GetOr(c.target))
  }

  /** Merging the same update twice is merging it once; an empty update changes nothing. */
  lemma MergeCameraIdempotent(c: CameraState, p: CameraPatch)
    ensures MergeCamera(MergeCamera(c, p), p) == MergeCamera(c, p)
    ensures MergeCamera(c, CameraPatch(None, None)) == c
  {
  }
}
