/**
 * Carrying material props over to another three.js material class: keep the
 * props the new class accepts, drop the rest, and fill in the new class's
 * defaults where a prop is missing or undefined.
 */
module NormalizeMaterial {
  import opened Values

  datatype MaterialType =
    | MeshStandardMaterial
    | MeshPhysicalMaterial
    | MeshPhongMaterial
    | MeshLambertMaterial
    | MeshBasicMaterial

  /** The class name stored in a material spec's `type`. */
  function TypeName(t: MaterialType): string {
    match t
    case MeshStandardMaterial => "MeshStandardMaterial"
    case MeshPhysicalMaterial => "MeshPhysicalMaterial"
    case MeshPhongMaterial => "MeshPhongMaterial"
    case MeshLambertMaterial => "MeshLambertMaterial"
    case MeshBasicMaterial => "MeshBasicMaterial"
  }

  /** Distinct classes have distinct names. */
  lemma TypeNameInjective(t: MaterialType, u: MaterialType)
    ensures TypeName(t) == TypeName(u) ==> t == u
  {
  }

  /** The props every material class accepts. */
  const CommonKeys: set<string> :=
    {"color", "wireframe", "transparent", "opacity", "alphaTest", "depthTest", "depthWrite", "visible", "side"}

  function AllowedKeys(t: MaterialType): set<string> {
    match t
    case MeshStandardMaterial => CommonKeys + {"roughness", "metalness"}
    case MeshPhysicalMaterial =>
      CommonKeys + {"roughness", "metalness", "clearcoat", "clearcoatRoughness", "ior", "transmission", "thickness"}
    case MeshPhongMaterial => CommonKeys + {"shininess", "specular"}
    case MeshLambertMaterial => CommonKeys
    case MeshBasicMaterial => CommonKeys
  }

  function Defaults(t: MaterialType): Record {
    match t
    case MeshStandardMaterial => map["roughness" := Num(0.5), "metalness" := Num(0.0)]
    case MeshPhysicalMaterial =>
      map["roughness" := Num(0.5), "metalness" := Num(0.0), "clearcoat" := Num(0.0),
          "clearcoatRoughness" := Num(0.0), "ior" := Num(1.5), "transmission" := Num(0.0),
          "thickness" := Num(0.0)]
    case MeshPhongMaterial => map["shininess" := Num(30.0), "specular" := Str("#111111")]
    case MeshLambertMaterial => map[]
    case MeshBasicMaterial => map[]
  }

  /** Every defaulted prop is one the class accepts. */
  lemma DefaultsAreAllowed(t: MaterialType)
    ensures Defaults(t).Keys <= AllowedKeys(t)
    ensures forall k :: k in Defaults(t) ==> Defaults(t)[k] != Undefined
  {
  }

  /** The value the normalized props hold for `k`, by the two passes of the algorithm. */
  function NormalizedValue(old_: Record, allowed: set<string>, defaults: Record, k: string): Value
    requires (k in old_ && k in allowed) || k in defaults
  {
    if k in old_ && k in allowed && old_[k] != Undefined then old_[k]
    else if k in defaults then defaults[k]
    else old_[k]
  }

  /** The props kept from `old_` under the `allowed` keys, with `defaults` filled in. */
  function NormalizedWith(old_: Record, allowed: set<string>, defaults: Record): (r: Record)
    ensures r.Keys == (old_.Keys * allowed) + defaults.Keys
  {
    map k | k in (old_.Keys * allowed) + defaults.Keys :: NormalizedValue(old_, allowed, defaults, k)
  }

  /** `normalizeMaterialProps(oldProps, newType)` as a value. */
  function Normalized(old_: Record, t: MaterialType): Record {
    NormalizedWith(old_, AllowedKeys(t), Defaults(t))
  }

  /**
   * The two passes of `normalizeMaterialProps`: copy the allowed props, then
   * fill each default whose prop is still missing or undefined.
   */
  method NormalizeWith(oldProps: Record, allowed: set<string>, defaults: Record) returns (next: Record)
    ensures next == NormalizedWith(oldProps, allowed, defaults)
  {
    next := map[];
    var todo := oldProps.Keys;
    while todo != {}
      invariant todo <= oldProps.Keys
      invariant next.Keys == (oldProps.Keys - todo) * allowed
      invariant forall k :: k in next ==> next[k] == oldProps[k]
      decreases todo
    {
      var key :| key in todo;
      if key in allowed {
        next := next[key := oldProps[key]];
      }
      todo := todo - {key};
    }
    var pending := defaults.Keys;
    while pending != {}
      invariant pending <= defaults.Keys
      invariant next.Keys == (oldProps.Keys * allowed) + (defaults.Keys - pending)
      invariant forall k :: k in next ==>
        next[k] == (if k in pending then oldProps[k] else NormalizedValue(oldProps, allowed, defaults, k))
      decreases pending
    {
      var key :| key in pending;
      if key !in next || next[key] == Undefined {
        next := next[key := defaults[key]];
      }
      pending := pending - {key};
    }
  }

  /** `normalizeMaterialProps(oldProps, newType)`. */
  method NormalizeMaterialProps(oldProps: Record, newType: MaterialType) returns (next: Record)
    ensures next == Normalized(oldProps, newType)
    ensures next.Keys <= AllowedKeys(newType)
  {
    next := NormalizeWith(oldProps, AllowedKeys(newType), Defaults(newType));
    NormalizedKeysAllowed(oldProps, newType);
  }

  /** Every output prop is accepted by the new class. */
  lemma NormalizedKeysAllowed(old_: Record, t: MaterialType)
    ensures Normalized(old_, t).Keys <= AllowedKeys(t)
  {
    DefaultsAreAllowed(t);
  }

  /** An accepted prop with a value keeps that value. */
  lemma NormalizedKeepsValues(old_: Record, t: MaterialType, k: string)
    requires k in old_ && k in AllowedKeys(t) && old_[k] != Undefined
    ensures k in Normalized(old_, t) && Normalized(old_, t)[k] == old_[k]
  {
  }

  /** Every default prop is present; it holds the default exactly when the input had no value for it. */
  lemma NormalizedFillsDefaults(old_: Record, t: MaterialType, k: string)
    requires k in Defaults(t)
    ensures k in Normalized(old_, t)
    ensures (k !in old_ || old_[k] == Undefined) ==> Normalized(old_, t)[k] == Defaults(t)[k]
    ensures k in old_ && old_[k] != Undefined ==> Normalized(old_, t)[k] == old_[k]
  {
    DefaultsAreAllowed(t);
  }

  /** Normalizing props already normalized for the same class changes nothing. */
  lemma NormalizedIdempotent(old_: Record, t: MaterialType)
    ensures Normalized(Normalized(old_, t), t) == Normalized(old_, t)
  {
    var once := Normalized(old_, t);
    var twice := Normalized(once, t);
    DefaultsAreAllowed(t);
    assert twice.Keys == once.Keys;
    forall k | k in once ensures twice[k] == once[k] {
    }
  }

  /** Switching to the basic or Lambert class keeps only the nine common props. */
  lemma NormalizedToCommon(old_: Record, t: MaterialType)
    requires t == MeshBasicMaterial || t == MeshLambertMaterial
    ensures Normalized(old_, t).Keys == old_.Keys * CommonKeys
    ensures forall k :: k in Normalized(old_, t) ==> Normalized(old_, t)[k] == old_[k]
  {
  }
}
