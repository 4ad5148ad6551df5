/**
 * Platform-dependent keyboard helpers: the platform modifier (Command on a
 * Mac, Control elsewhere), the canonical shortcut string built from a key
 * event, and the label shown for a shortcut. Whether the browser reports a
 * Mac platform is a parameter.
 */
module Platform {
  import opened Text
  import opened ShortcutTypes

  /** The parts of a keyboard or mouse event these helpers read. */
  datatype KeyEvent = KeyEvent(code: string, ctrlKey: bool, metaKey: bool, shiftKey: bool, altKey: bool)

  /** `getModifierKey(e)`: Command on a Mac, Control elsewhere. */
  function GetModifierKey(e: KeyEvent, isMac: bool): (r: bool)
    ensures isMac ==> (r <==> e.metaKey)
    ensures !isMac ==> (r <==> e.ctrlKey)
  {
    if isMac then e.metaKey else e.ctrlKey
  }

  /** `getModifiers(e)`. */
  function GetModifiers(e: KeyEvent, isMac: bool): (m: ModifierState)
    ensures m.ctrl == GetModifierKey(e, isMac) && m.shift == e.shiftKey && m.alt == e.altKey
  {
    ModifierState(GetModifierKey(e, isMac), e.shiftKey, e.altKey)
  }

  /** The modifier prefix of a shortcut string: "Ctrl+", "Shift+", "Alt+" in that order, each when held. */
  function ModifierPrefix(m: ModifierState): string {
    (if m.ctrl then "Ctrl+" else "") + (if m.shift then "Shift+" else "") + (if m.alt then "Alt+" else "")
  }

  /** How many of the three modifiers are held. */
  function ActiveCount(m: ModifierState): nat {
    (if m.ctrl then 1 else 0) + (if m.shift then 1 else 0) + (if m.alt then 1 else 0)
  }

  /** The number of occurrences of `c` in `s`. */
  function CountChar(s: string, c: char): (n: nat)
    ensures n <= |s|
  {
    if s == [] then 0 else CountChar(s[..|s| - 1], c) + (if s[|s| - 1] == c then 1 else 0)
  }

  lemma {:induction false} CountCharConcat(a: string, b: string, c: char)
    ensures CountChar(a + b, c) == CountChar(a, c) + CountChar(b, c)
    decreases |b|
  {
    if b == [] {
      assert a + b == a;
    } else {
      assert (a + b)[..|a + b| - 1] == a + b[..|b| - 1];
      CountCharConcat(a, b[..|b| - 1], c);
    }
  }

  /** The prefix holds one '+' per held modifier. */
  lemma PrefixSeparators(m: ModifierState)
    ensures CountChar(ModifierPrefix(m), '+') == ActiveCount(m)
  {
    var c := if m.ctrl then "Ctrl+" else "";
    var s := if m.shift then "Shift+" else "";
    var a := if m.alt then "Alt+" else "";
    CountCharConcat(c, s, '+');
    CountCharConcat(c + s, a, '+');
    OnePlus("Ctrl+");
    OnePlus("Shift+");
    OnePlus("Alt+");
  }

  /** A modifier prefix is empty or ends in '+', and never holds a 'K'. */
  lemma PrefixShape(m: ModifierState)
    ensures var p := ModifierPrefix(m); (p == [] || p[|p| - 1] == '+') && 'K' !in p
  {
    var c := if m.ctrl then "Ctrl+" else "";
    var s := if m.shift then "Shift+" else "";
    var a := if m.alt then "Alt+" else "";
    assert 'K' !in c && 'K' !in s && 'K' !in a;
    assert ModifierPrefix(m) == c + s + a;
  }

  /** A built key whose code holds no '+' has exactly one '+' per held modifier. */
  lemma BuiltKeySeparators(m: ModifierState, code: string)
    requires '+' !in code
    ensures CountChar(ModifierPrefix(m) + code, '+') == ActiveCount(m)
  {
    PrefixSeparators(m);
    NoPlusCount(code);
    CountCharConcat(ModifierPrefix(m), code, '+');
  }

  /** A text whose only '+' is its last character holds exactly one '+'. */
  lemma OnePlus(w: string)
    requires |w| > 0 && w[|w| - 1] == '+'
    requires forall i :: 0 <= i < |w| - 1 ==> w[i] != '+'
    ensures CountChar(w, '+') == 1
  {
    NoPlusCount(w[..|w| - 1]);
  }

  /**
   * `buildShortcutKey(e)`: the held modifiers, platform modifier first as
   * "Ctrl", then "Shift", then "Alt", followed by the key code, joined with
   * '+'. It always ends in the code, and a code without '+' is preceded by
   * exactly one '+' per held modifier.
   */
  method BuildShortcutKey(e: KeyEvent, isMac: bool) returns (key: string)
    ensures key == ModifierPrefix(GetModifiers(e, isMac)) + e.code
    ensures EndsWith(key, e.code)
    ensures CountChar(key, '+') == ActiveCount(GetModifiers(e, isMac)) + CountChar(e.code, '+')
  {
    ghost var m := GetModifiers(e, isMac);
    var parts: seq<string> := [];
    if GetModifierKey(e, isMac) {
      JoinedPrefixSnoc(parts, "Ctrl", "+");
      parts := parts + ["Ctrl"];
    }
    assert JoinedPrefix(parts, "+") == (if m.ctrl then "Ctrl+" else "");
    if e.shiftKey {
      JoinedPrefixSnoc(parts, "Shift", "+");
      parts := parts + ["Shift"];
    }
    assert JoinedPrefix(parts, "+") == (if m.ctrl then "Ctrl+" else "") + (if m.shift then "Shift+" else "");
    if e.altKey {
      JoinedPrefixSnoc(parts, "Alt", "+");
      parts := parts + ["Alt"];
    }
    assert JoinedPrefix(parts, "+") == ModifierPrefix(m);
    ghost var modifiers := parts;
    parts := parts + [e.code];
    JoinLast(modifiers, e.code, "+");
    key := Join(parts, "+");
    assert key[|key| - |e.code|..] == e.code;
    PrefixSeparators(m);
    CountCharConcat(ModifierPrefix(m), e.code, '+');
  }

  /** Each part followed by the separator. */
  function JoinedPrefix(parts: seq<string>, sep: string): string {
    if parts == [] then [] else parts[0] + sep + JoinedPrefix(parts[1..], sep)
  }

  lemma {:induction false} JoinedPrefixSnoc(parts: seq<string>, w: string, sep: string)
    ensures JoinedPrefix(parts + [w], sep) == JoinedPrefix(parts, sep) + w + sep
  {
    if parts == [] {
      assert [w][1..] == [];
    } else {
      assert (parts + [w])[1..] == parts[1..] + [w];
      JoinedPrefixSnoc(parts[1..], w, sep);
    }
  }

  /** Joining parts that end in `last` is each earlier part followed by the separator, then `last`. */
  lemma {:induction false} JoinLast(parts: seq<string>, last: string, sep: string)
    ensures Join(parts + [last], sep) == JoinedPrefix(parts, sep) + last
  {
    if parts != [] {
      assert (parts + [last])[1..] == parts[1..] + [last];
      JoinLast(parts[1..], last, sep);
    }
  }

  /**
   * A shortcut string gives its modifiers and its code back: two events
   * whose codes hold no '+' build the same string only when they hold the
   * same modifiers and have the same code.
   */
  lemma ShortcutKeyInjective(m1: ModifierState, c1: string, m2: ModifierState, c2: string)
    requires '+' !in c1 && '+' !in c2
    requires ModifierPrefix(m1) + c1 == ModifierPrefix(m2) + c2
    ensures m1 == m2 && c1 == c2
  {
    PrefixSeparators(m1);
    PrefixSeparators(m2);
    NoPlusCount(c1);
    NoPlusCount(c2);
    CountCharConcat(ModifierPrefix(m1), c1, '+');
    CountCharConcat(ModifierPrefix(m2), c2, '+');
    var p1, p2 := ModifierPrefix(m1), ModifierPrefix(m2);
    PrefixShape(m1);
    PrefixShape(m2);
    LastPlus(p1, c1);
    LastPlus(p2, c2);
    assert |p1| == |p2|;
    assert p1 == (p1 + c1)[..|p1|];
    assert p2 == (p2 + c2)[..|p2|];
    PrefixInjective(m1, m2);
  }

  lemma {:induction false} NoPlusCount(s: string)
    requires '+' !in s
    ensures CountChar(s, '+') == 0
  {
    if s != [] {
      assert s[..|s| - 1] <= s;
      NoPlusCount(s[..|s| - 1]);
    }
  }

  /** A modifier prefix is empty or ends in '+', so in `p + c` with no '+' in `c` it ends just after the last '+'. */
  lemma LastPlus(p: string, c: string)
    requires p == [] || p[|p| - 1] == '+'
    requires '+' !in c
    ensures |p| == LastPlusEnd(p + c)
  {
    LastPlusEndAfter(p, c);
  }

  /** One past the index of the last '+' in `s`, or 0 when there is none. */
  function LastPlusEnd(s: string): (n: nat)
    ensures n <= |s|
  {
    if s == [] then 0 else if s[|s| - 1] == '+' then |s| else LastPlusEnd(s[..|s| - 1])
  }

  lemma {:induction false} LastPlusEndAfter(p: string, c: string)
    requires p == [] || p[|p| - 1] == '+'
    requires '+' !in c
    ensures LastPlusEnd(p + c) == |p|
    decreases |c|
  {
    if c == [] {
      assert p + c == p;
    } else {
      assert (p + c)[..|p + c| - 1] == p + c[..|c| - 1];
      assert (p + c)[|p + c| - 1] == c[|c| - 1];
      LastPlusEndAfter(p, c[..|c| - 1]);
    }
  }

  /** Different modifier states have different prefixes. */
  lemma PrefixInjective(m1: ModifierState, m2: ModifierState)
    requires ModifierPrefix(m1) == ModifierPrefix(m2)
    ensures m1 == m2
  {
  }

  /**
   * The global replacement of `Key` followed by a capital letter with that
   * letter, scanning left to right and resuming after each replaced match.
   */
  function StripKeyPrefix(s: string): (r: string)
    ensures |r| <= |s|
  {
    if |s| >= 4 && s[..3] == "Key" && IsUpper(s[3]) then [s[3]] + StripKeyPrefix(s[4..])
    else if s == [] then []
    else [s[0]] + StripKeyPrefix(s[1..])
  }

  /** Text without a 'K' cannot start a match, so it passes through unchanged. */
  lemma {:induction false} StripKeyPrefixSkips(p: string, q: string)
    requires 'K' !in p
    ensures StripKeyPrefix(p + q) == p + StripKeyPrefix(q)
  {
    if p != [] {
      var s := p + q;
      assert s[0] == p[0] != 'K';
      assert |s| >= 4 ==> s[..3] != "Key" by {
        if |s| >= 4 {
          assert s[..3][0] != "Key"[0];
        }
      }
      assert StripKeyPrefix(s) == [s[0]] + StripKeyPrefix(s[1..]);
      assert s[1..] == p[1..] + q;
      StripKeyPrefixSkips(p[1..], q);
      assert [p[0]] + p[1..] == p;
    } else {
      assert p + q == q;
    }
  }

  /** Replacing a text by itself changes nothing. */
  lemma ReplaceFirstSelf(s: string, pat: string)
    ensures ReplaceFirst(s, pat, pat) == s
  {
    var k := IndexOf(s, pat);
    if k != -1 {
      assert s == s[..k] + s[k..k + |pat|] + s[k + |pat|..];
    }
  }

  /** A text without '+' holds no occurrence of a pattern with one. */
  lemma NoPlusNoMatch(s: string, pat: string)
    requires '+' !in s && '+' in pat
    ensures IndexOf(s, pat) == -1
  {
  }

  /** On a Mac the first "Ctrl+", "Alt+" and "Shift+" become ⌘, ⌥ and ⇧, in that order. */
  function MacSymbols(s: string): string {
    ReplaceFirst(ReplaceFirst(ReplaceFirst(s, "Ctrl+", "⌘"), "Alt+", "⌥"), "Shift+", "⇧")
  }

  /**
   * `getShortcutLabel(shortcut)`: on a Mac the modifier names become
   * symbols; elsewhere they stay; then every `Key` before a capital letter
   * is dropped.
   */
  function GetShortcutLabel(shortcut: string, isMac: bool): (shown: string)
    ensures !isMac ==> shown == StripKeyPrefix(shortcut)
  {
    if isMac then StripKeyPrefix(MacSymbols(shortcut))
    else
      ReplaceFirstSelf(shortcut, "Ctrl+");
      ReplaceFirstSelf(shortcut, "Alt+");
      StripKeyPrefix(ReplaceFirst(ReplaceFirst(shortcut, "Ctrl+", "Ctrl+"), "Alt+", "Alt+"))
  }

  /** Off a Mac, the label of a modifier-and-letter shortcut is the shortcut without `Key`: "Ctrl+KeyD" shows "Ctrl+D". */
  lemma LetterLabelOffMac(m: ModifierState, c: char)
    requires IsUpper(c)
    ensures GetShortcutLabel(ModifierPrefix(m) + "Key" + [c], false) == ModifierPrefix(m) + [c]
  {
    var p := ModifierPrefix(m);
    ReplaceFirstSelf(p + "Key" + [c], "Ctrl+");
    ReplaceFirstSelf(p + "Key" + [c], "Alt+");
    PrefixShape(m);
    assert p + "Key" + [c] == p + ("Key" + [c]);
    StripKeyPrefixSkips(p, "Key" + [c]);
    assert ("Key" + [c])[..3] == "Key" && ("Key" + [c])[4..] == [];
  }

  /** On a Mac, "Ctrl+KeyD" shows "⌘D". */
  lemma CtrlLetterLabelOnMac(c: char)
    requires IsUpper(c)
    ensures GetShortcutLabel("Ctrl+Key" + [c], true) == "⌘" + [c]
  {
    var s := "Ctrl+Key" + [c];
    assert OccursAt(s, "Ctrl+", 0) by { assert s[0..5] == "Ctrl+"; }
    var t := "⌘Key" + [c];
    assert ReplaceFirst(s, "Ctrl+", "⌘") == t by { assert s[5..] == "Key" + [c]; }
    assert '+' !in t;
    NoPlusNoMatch(t, "Alt+");
    NoPlusNoMatch(t, "Shift+");
    assert 'K' !in "⌘";
    assert t == "⌘" + ("Key" + [c]);
    StripKeyPrefixSkips("⌘", "Key" + [c]);
    assert ("Key" + [c])[..3] == "Key" && ("Key" + [c])[4..] == [];
  }
}
