/** The vocabulary of the keyboard-shortcut system: tools, cursor and view modes, actions. */
module ShortcutTypes {
  import opened Wrappers

  datatype ToolType = Hand | Translate | Rotate | Scale | Universal

  datatype CursorMode = DefaultCursor | Grab | Grabbing | Eye

  datatype NavigationMode = Orbit | Fly

  datatype ViewMode = View2D | View3D

  /**
   * The action a shortcut names. `Unknown` stands for any other string, which
   * the dispatcher reports and ignores.
   */
  datatype ActionType =
    | SetTool
    | FocusObject
    | FollowObject
    | RenameObject
    | DeleteObject
    | DeleteObjectImmediate
    | DuplicateObject
    | SelectAll
    | Undo
    | Redo
    | ResetTransform
    | Unknown(name: string)

  /** A registry entry; `params` is only ever a tool here. */
  datatype ShortcutAction = ShortcutAction(
    action: ActionType,
    params: Option<ToolType>,
    priority: int,
    requiresSelection: bool,
    disabledIn2D: bool)

  datatype ModifierState = ModifierState(ctrl: bool, shift: bool, alt: bool)

  const NoModifiers := ModifierState(false, false, false)

  /** `Partial<ModifierState>`. */
  datatype ModifierPatch = ModifierPatch(ctrl: Option<bool>, shift: Option<bool>, alt: Option<bool>)

  /** `{...modifiers, ...mods}`. */
  function MergeModifiers(m: ModifierState, p: ModifierPatch): (r: ModifierState)
    ensures r.ctrl == (if p.ctrl.Some? then p.ctrl.value else m.ctrl)
    ensures r.shift == (if p.shift.Some? then p.shift.value else m.shift)
    ensures r.alt == (if p.alt.Some? then p.alt.value else m.alt)
  {
    ModifierState(p.ctrl.GetOr(m.ctrl), p.shift.GetOr(m.shift), p.alt.GetOr(m.alt))
  }

  /** A full update replaces the state; merging the same update twice is merging it once. */
  lemma MergeModifiersLaws(m: ModifierState, p: ModifierPatch)
    ensures MergeModifiers(MergeModifiers(m, p), p) == MergeModifiers(m, p)
    ensures p.ctrl.Some? && p.shift.Some? && p.alt.Some? ==>
      MergeModifiers(m, p) == ModifierState(p.ctrl.value, p.shift.value, p.alt.value)
  {
  }
}
