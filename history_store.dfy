/**
 * The undo/redo history: a stack of done commands (`past`) and a stack of
 * undone ones (`future`). Commands are values of any type `C`; running a
 * command's `execute` or `undo` is recorded as an effect, and a command's
 * optional `merge` is a function that either absorbs the newer command
 * (returning the updated older one) or refuses it.
 */
module HistoryStore {
  import opened Wrappers

  /** The two stacks; the top of `past` is its last element, the top of `future` its first. */
  datatype Stacks<C> = Stacks(past: seq<C>, future: seq<C>)

  /** A call the history makes into a command. */
  datatype Effect<C> = Executed(cmd: C) | Undone(cmd: C)

  /**
   * The stacks after `execute(cmd)`: the redo stack is forgotten and the
   * earlier history is kept; `cmd` either sits on top of it or was absorbed
   * by the previous top, which the merge replaced.
   */
  function AfterExecute<C>(s: Stacks<C>, cmd: C, merge: (C, C) -> Option<C>): (r: Stacks<C>)
    ensures r.future == [] && r.past != []
    ensures |s.past| <= |r.past| <= |s.past| + 1
    ensures |r.past| == |s.past| + 1 ==> r.past == s.past + [cmd]
    ensures |r.past| == |s.past| ==>
      && r.past[..|r.past| - 1] == s.past[..|s.past| - 1]
      && merge(s.past[|s.past| - 1], cmd) == Some(r.past[|r.past| - 1])
    ensures |r.past| == |s.past| <==> |s.past| > 0 && merge(s.past[|s.past| - 1], cmd).Some?
  {
    if |s.past| > 0 && merge(s.past[|s.past| - 1], cmd).Some? then
      Stacks(s.past[..|s.past| - 1] + [merge(s.past[|s.past| - 1], cmd).value], [])
    else
      Stacks(s.past + [cmd], [])
  }

  /** The stacks after `undo()`: the top of `past` moves to the front of `future`. */
  function AfterUndo<C>(s: Stacks<C>): (r: Stacks<C>)
    ensures s.past == [] ==> r == s
    ensures s.past != [] ==> r.past + [s.past[|s.past| - 1]] == s.past && r.future == [s.past[|s.past| - 1]] + s.future
  {
    if s.past == [] then s
    else Stacks(s.past[..|s.past| - 1], [s.past[|s.past| - 1]] + s.future)
  }

  /** The stacks after `redo()`: the front of `future` moves to the top of `past`. */
  function AfterRedo<C>(s: Stacks<C>): (r: Stacks<C>)
    ensures s.future == [] ==> r == s
    ensures s.future != [] ==> r.past == s.past + [s.future[0]] && [s.future[0]] + r.future == s.future
  {
    if s.future == [] then s
    else Stacks(s.past + [s.future[0]], s.future[1..])
  }

  /** Undo then redo gives back the stacks exactly, whenever there was something to undo. */
  lemma UndoThenRedo<C>(s: Stacks<C>)
    requires s.past != []
    ensures AfterRedo(AfterUndo(s)) == s
  {
    var u := AfterUndo(s);
    assert u.future[0] == s.past[|s.past| - 1] && u.future[1..] == s.future;
  }

  /** Redo then undo gives back the stacks exactly, whenever there was something to redo. */
  lemma RedoThenUndo<C>(s: Stacks<C>)
    requires s.future != []
    ensures AfterUndo(AfterRedo(s)) == s
  {
    var r := AfterRedo(s);
    assert r.past[..|r.past| - 1] == s.past;
  }

  /** Undo and redo move one command between the stacks and lose none. */
  lemma UndoRedoKeepSize<C>(s: Stacks<C>)
    ensures |AfterUndo(s).past| + |AfterUndo(s).future| == |s.past| + |s.future|
    ensures |AfterRedo(s).past| + |AfterRedo(s).future| == |s.past| + |s.future|
  {
  }

  /**
   * Undo right after an execute takes back exactly that edit: a pushed command
   * moves alone to the redo stack, and a merged one takes the edits it
   * absorbed with it.
   */
  lemma ExecuteThenUndo<C>(s: Stacks<C>, cmd: C, merge: (C, C) -> Option<C>)
    ensures !(|s.past| > 0 && merge(s.past[|s.past| - 1], cmd).Some?) ==>
      AfterUndo(AfterExecute(s, cmd, merge)) == Stacks(s.past, [cmd])
    ensures |s.past| > 0 && merge(s.past[|s.past| - 1], cmd).Some? ==>
      AfterUndo(AfterExecute(s, cmd, merge)) == Stacks(s.past[..|s.past| - 1], [merge(s.past[|s.past| - 1], cmd).value])
  {
    var e := AfterExecute(s, cmd, merge);
    if |e.past| == |s.past| + 1 {
      assert e.past[..|e.past| - 1] == s.past;
    }
  }

  /** After an execute there is nothing to redo, and an undo can always be redone. */
  lemma ExecuteThenRedo<C>(s: Stacks<C>, cmd: C, merge: (C, C) -> Option<C>)
    ensures AfterRedo(AfterExecute(s, cmd, merge)) == AfterExecute(s, cmd, merge)
    ensures AfterRedo(AfterUndo(AfterExecute(s, cmd, merge))) == AfterExecute(s, cmd, merge)
  {
    UndoThenRedo(AfterExecute(s, cmd, merge));
  }

  /** The stacks after `k` undos. */
  function Undos<C>(s: Stacks<C>, k: nat): Stacks<C> {
    if k == 0 then s else AfterUndo(Undos(s, k - 1))
  }

  /** The stacks after `k` redos. */
  function Redos<C>(s: Stacks<C>, k: nat): Stacks<C> {
    if k == 0 then s else AfterRedo(Redos(s, k - 1))
  }

  /** An undo can be taken first or last. */
  lemma {:induction false} UndosComm<C>(s: Stacks<C>, k: nat)
    ensures Undos(AfterUndo(s), k) == AfterUndo(Undos(s, k))
  {
    if k > 0 {
      var u := Undos(s, k - 1);
      calc {
        Undos(AfterUndo(s), k);
        AfterUndo(Undos(AfterUndo(s), k - 1));
        { UndosComm(s, k - 1); }
        AfterUndo(AfterUndo(u));
        AfterUndo(Undos(s, k));
      }
    }
  }

  /** `k` undos followed by `k` redos restore the stacks when at least `k` commands were done. */
  lemma {:induction false} UndosThenRedos<C>(s: Stacks<C>, k: nat)
    requires k <= |s.past|
    ensures Redos(Undos(s, k), k) == s
    decreases k
  {
    if k > 0 {
      var u := AfterUndo(s);
      UndosComm(s, k - 1);
      UndosThenRedos(u, k - 1);
      UndoThenRedo(s);
    }
  }

  class History<C> {
    var past: seq<C>
    var future: seq<C>
    /** Every `execute` and `undo` call made into a command, oldest first. */
    var effects: seq<Effect<C>>
    const merge: (C, C) -> Option<C>

    function StacksOf(): Stacks<C>
      reads this
    {
      Stacks(past, future)
    }

    constructor (merge: (C, C) -> Option<C>)
      ensures past == [] && future == [] && effects == []
      ensures this.merge == merge
    {
      this.merge := merge;
      past := [];
      future := [];
      effects := [];
    }

    /** `execute(cmd)`: run it, merge it into the last command or push it, and forget the redo stack. */
    method Execute(cmd: C)
      modifies this
      ensures StacksOf() == AfterExecute(old(StacksOf()), cmd, merge)
      ensures effects == old(effects) + [Executed(cmd)]
    {
      effects := effects + [Executed(cmd)];
      if |past| > 0 {
        var merged := merge(past[|past| - 1], cmd);
        if merged.Some? {
          past := past[..|past| - 1] + [merged.value];
          future := [];
          return;
        }
      }
      past := past + [cmd];
      future := [];
    }

    /** `undo()`: nothing on an empty history; otherwise undo the last command and move it to `future`. */
    method Undo()
      modifies this
      ensures StacksOf() == AfterUndo(old(StacksOf()))
      ensures old(past) == [] ==> effects == old(effects)
      ensures old(past) != [] ==> effects == old(effects) + [Undone(old(past)[|old(past)| - 1])]
    {
      if |past| == 0 {
        return;
      }
      var cmd := past[|past| - 1];
      effects := effects + [Undone(cmd)];
      past := past[..|past| - 1];
      future := [cmd] + future;
    }

    /** `redo()`: nothing on an empty redo stack; otherwise re-execute its first command and push it. */
    method Redo()
      modifies this
      ensures StacksOf() == AfterRedo(old(StacksOf()))
      ensures old(future) == [] ==> effects == old(effects)
      ensures old(future) != [] ==> effects == old(effects) + [Executed(old(future)[0])]
    {
      if |future| == 0 {
        return;
      }
      var cmd := future[0];
      effects := effects + [Executed(cmd)];
      past := past + [cmd];
      future := future[1..];
    }

    method Clear()
      modifies this
      ensures past == [] && future == [] && effects == old(effects)
    {
      past := [];
      future := [];
    }
  }
}
