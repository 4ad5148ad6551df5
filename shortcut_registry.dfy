/**
 * The table of default keyboard shortcuts, keyed by the strings the
 * shortcut-key builder produces: single tool keys, single function keys,
 * two-part and three-part combinations. A field the table leaves out reads
 * as false.
 */
module ShortcutRegistry {
  import opened Wrappers
  import opened ShortcutTypes
  import opened Platform

  function Tool(t: ToolType, disabledIn2D: bool): ShortcutAction {
    ShortcutAction(SetTool, Some(t), 1, false, disabledIn2D)
  }

  function Plain(a: ActionType, priority: int, requiresSelection: bool): ShortcutAction {
    ShortcutAction(a, None, priority, requiresSelection, false)
  }

  /** `defaultShortcuts`. */
  const DefaultShortcuts: map<string, ShortcutAction> := map[
    "KeyQ" := Tool(Hand, false),
    "KeyW" := Tool(Translate, false),
    "KeyE" := Tool(Rotate, true),
    "KeyR" := Tool(Scale, false),
    "KeyY" := Tool(Universal, false),
    "KeyF" := Plain(FocusObject, 2, true),
    "F2" := Plain(RenameObject, 2, true),
    "Delete" := Plain(DeleteObject, 2, true),
    "Shift+KeyF" := Plain(FollowObject, 3, true),
    "Shift+Delete" := Plain(DeleteObjectImmediate, 3, true),
    "Ctrl+KeyA" := Plain(SelectAll, 3, false),
    "Ctrl+KeyD" := Plain(DuplicateObject, 3, true),
    "Ctrl+KeyZ" := Plain(Undo, 3, false),
    "Ctrl+KeyY" := Plain(Redo, 3, false),
    "Ctrl+Shift+KeyZ" := Plain(ResetTransform, 4, true)
  ]

  /** `defaultShortcuts[key]`, absent for a key the table does not list. */
  function Lookup(key: string): (r: Option<ShortcutAction>)
    ensures r.Some? <==> key in DefaultShortcuts
    ensures r.Some? ==> r.value == DefaultShortcuts[key]
  {
    if key in DefaultShortcuts then Some(DefaultShortcuts[key]) else None
  }

  /** Q, W, E, R and Y pick the hand, translate, rotate, scale and universal tools at priority 1. */
  lemma ToolKeys()
    ensures Lookup("KeyQ") == Some(ShortcutAction(SetTool, Some(Hand), 1, false, false))
    ensures Lookup("KeyW") == Some(ShortcutAction(SetTool, Some(Translate), 1, false, false))
    ensures Lookup("KeyE") == Some(ShortcutAction(SetTool, Some(Rotate), 1, false, true))
    ensures Lookup("KeyR") == Some(ShortcutAction(SetTool, Some(Scale), 1, false, false))
    ensures Lookup("KeyY") == Some(ShortcutAction(SetTool, Some(Universal), 1, false, false))
  {
  }

  /** Exactly the tool entries carry a tool parameter, and they are exactly the priority-1 entries. */
  lemma ToolEntries()
    ensures forall k :: k in DefaultShortcuts ==>
      (DefaultShortcuts[k].action == SetTool <==> DefaultShortcuts[k].params.Some?)
    ensures forall k :: k in DefaultShortcuts ==>
      (DefaultShortcuts[k].action == SetTool <==> DefaultShortcuts[k].priority == 1)
  {
  }

  /** Only the rotate tool's key is switched off in the 2D view. */
  lemma OnlyRotateDisabledIn2D()
    ensures forall k :: k in DefaultShortcuts ==> (DefaultShortcuts[k].disabledIn2D <==> k == "KeyE")
  {
  }

  /** F, F2 and Delete act on the selection at priority 2. */
  lemma FunctionKeys()
    ensures forall k :: k in {"KeyF", "F2", "Delete"} ==>
      k in DefaultShortcuts && DefaultShortcuts[k].priority == 2 && DefaultShortcuts[k].requiresSelection
  {
  }

  /** The key built from modifiers `m` and a code without '+'. */
  ghost predicate BuiltFrom(k: string, m: ModifierState, code: string) {
    '+' !in code && k == ModifierPrefix(m) + code
  }

  const Shift := ModifierState(false, true, false)
  const Ctrl := ModifierState(true, false, false)
  const CtrlShift := ModifierState(true, true, false)

  /** How each key of the table is built: its modifiers and its code. */
  lemma Decomposition(k: string) returns (m: ModifierState, code: string)
    requires k in DefaultShortcuts
    ensures BuiltFrom(k, m, code)
    ensures m != NoModifiers ==> DefaultShortcuts[k].priority == ActiveCount(m) + 2
    ensures m == NoModifiers ==> DefaultShortcuts[k].priority in {1, 2}
  {
    if k in {"KeyQ", "KeyW", "KeyE", "KeyR", "KeyY", "KeyF", "F2", "Delete"} {
      m, code := NoModifiers, k;
    } else if k == "Shift+KeyF" {
      m, code := Shift, "KeyF";
    } else if k == "Shift+Delete" {
      m, code := Shift, "Delete";
    } else if k == "Ctrl+KeyA" {
      m, code := Ctrl, "KeyA";
    } else if k == "Ctrl+KeyD" {
      m, code := Ctrl, "KeyD";
    } else if k == "Ctrl+KeyZ" {
      m, code := Ctrl, "KeyZ";
    } else if k == "Ctrl+KeyY" {
      m, code := Ctrl, "KeyY";
    } else {
      m, code := CtrlShift, "KeyZ";
    }
  }

  /** A combination's priority is two more than its number of '+' separators; single keys have priority 1 or 2. */
  lemma CombinationPriorities(k: string)
    requires k in DefaultShortcuts
    ensures CountChar(k, '+') > 0 ==> DefaultShortcuts[k].priority == CountChar(k, '+') + 2
    ensures CountChar(k, '+') == 0 ==> DefaultShortcuts[k].priority in {1, 2}
  {
    var m, code := Decomposition(k);
    BuiltKeySeparators(m, code);
    if m != NoModifiers {
      assert ActiveCount(m) > 0;
    }
  }

  /**
   * Every key of the table is a string the shortcut-key builder can produce:
   * modifiers in the order Ctrl, Shift, Alt, then a code without '+'.
   */
  lemma KeysInBuilderOrder(k: string)
    requires k in DefaultShortcuts
    ensures exists m: ModifierState, code: string :: BuiltFrom(k, m, code)
  {
    var m, code := Decomposition(k);
  }
}
