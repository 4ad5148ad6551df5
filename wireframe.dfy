/**
 * Whether the renderer draws an object as a wireframe: always in the
 * wireframe render mode, otherwise as its material asks.
 */
module Wireframe {
  import opened Wrappers
  import opened Values
  import opened SceneModel
  import opened EditorTypes

  /** `value ?? fallback`: the value unless it is null or undefined. */
  function Coalesce(v: Value, fallback: Value): (r: Value)
    ensures v.Undefined? || v.Null? ==> r == fallback
    ensures !(v.Undefined? || v.Null?) ==> r == v
  {
    if v.Undefined? || v.Null? then fallback else v
  }

  /** `materialSpec?.props?.wireframe`. */
  function WireframeProp(spec: Option<MaterialSpec>): Value {
    match spec
    case None => Undefined
    case Some(s) => if "wireframe" in s.props then s.props["wireframe"] else Undefined
  }

  /**
   * `resolveWireframeOverride(renderMode, materialSpec)`: true in the
   * wireframe render mode whatever the material says; otherwise the
   * material's `wireframe` prop, or false when it has none (or there is no
   * material).
   */
  function ResolveWireframeOverride(mode: RenderMode, spec: Option<MaterialSpec>): (r: Value)
    ensures mode == Wireframe ==> r == Bool(true)
    ensures mode != Wireframe && spec.None? ==> r == Bool(false)
    ensures mode != Wireframe && spec.Some? && "wireframe" !in spec.value.props ==> r == Bool(false)
  {
    if mode == Wireframe then Bool(true) else Coalesce(WireframeProp(spec), Bool(false))
  }

  /** Material props whose `wireframe` entry, when present, is a boolean. */
  ghost predicate BooleanWireframe(spec: Option<MaterialSpec>) {
    spec.Some? && "wireframe" in spec.value.props ==> spec.value.props["wireframe"].Bool?
  }

  /**
   * With a boolean (or missing) `wireframe` prop, the override is a boolean,
   * and it is on exactly when the render mode is wireframe or the material
   * itself asks for a wireframe.
   */
  lemma OverrideIff(mode: RenderMode, spec: Option<MaterialSpec>)
    requires BooleanWireframe(spec)
    ensures ResolveWireframeOverride(mode, spec).Bool?
    ensures ResolveWireframeOverride(mode, spec) == Bool(true) <==>
      mode == Wireframe || (spec.Some? && "wireframe" in spec.value.props && spec.value.props["wireframe"] == Bool(true))
  {
  }
}
