/**
 * The undoable deletion of a selection. `execute` collects every requested
 * id but the root together with everything below it, snapshots the
 * collected objects the scene holds, removes each requested subtree through
 * the scene store and clears the selection; `undo` restores the snapshots
 * one by one and selects the requested ids again.
 */
module DeleteObjects {
  import opened Wrappers
  import opened Seqs
  import opened SceneModel
  import opened SceneGraph
  import opened SceneEdits
  import opened Pruning
  import opened Selection
  import SceneStore
  import EditorStore

  // ---------------------------------------------------------------------------
  // Collecting the ids
  // ---------------------------------------------------------------------------

  /** `x` is `from` itself or listed as a child by an object reachable from `from`. */
  ghost predicate Below(objs: Objects, from: string, x: string) {
    x == from || exists p :: Reachable(objs, from, p) && x in objs[p].children
  }

  /** Every stored object of `c`, except those of `open`, has all its children in `c`. */
  ghost predicate ClosedOutside(objs: Objects, c: seq<string>, open: set<string>) {
    forall x, k :: x in c && x !in open && x in objs && k in objs[x].children ==> k in c
  }

  lemma BelowChild(objs: Objects, id: string, c: string, x: string)
    requires id in objs && c in objs[id].children && Below(objs, c, x)
    ensures Below(objs, id, x)
  {
    PathSingleton(objs, id);
    if x != c {
      var p :| Reachable(objs, c, p) && x in objs[p].children;
      PathPrepend(objs, id, c, p);
    }
  }

  /** A stored object below `from` is reachable from it. */
  lemma BelowReachable(objs: Objects, from: string, x: string)
    requires x in objs && Below(objs, from, x)
    ensures Reachable(objs, from, x)
  {
    if x == from {
      PathSingleton(objs, x);
    } else {
      var p :| Reachable(objs, from, p) && x in objs[p].children;
      PathExtend(objs, from, p, x);
    }
  }

  /** A closed list holds everything reachable from its members. */
  lemma ClosedReach(objs: Objects, c: seq<string>, x: string, y: string)
    requires ClosedOutside(objs, c, {}) && x in c && Reachable(objs, x, y)
    ensures y in c
  {
    var p :| IsChildPath(objs, p) && p[0] == x && p[|p| - 1] == y;
    var i := 0;
    while i < |p| - 1
      invariant 0 <= i < |p| && p[i] in c
    {
      assert p[i + 1] in objs[p[i]].children;
      i := i + 1;
    }
  }

  /**
   * `collectIds(id)` over the ids `visited` so far: add `id` unless it is
   * there, then collect each child of a stored object. `open` holds the ids
   * whose children are still being collected further up the recursion.
   */
  method CollectIds(objs: Objects, id: string, visited: seq<string>, ghost open: set<string>) returns (r: seq<string>)
    requires NoDup(visited) && (forall x :: x in open ==> x in visited)
    requires ClosedOutside(objs, visited, open)
    ensures |visited| <= |r| && r[..|visited|] == visited
    ensures NoDup(r) && id in r
    ensures ClosedOutside(objs, r, open)
    ensures forall k :: |visited| <= k < |r| ==> Below(objs, id, r[k])
    decreases objs.Keys - (set x | x in visited)
  {
    if id in visited {
      return visited;
    }
    r := visited + [id];
    if id !in objs {
      return;
    }
    var kids := objs[id].children;
    var i := 0;
    while i < |kids|
      invariant i <= |kids|
      invariant |visited| < |r| && r[..|visited|] == visited && r[|visited|] == id && NoDup(r)
      invariant ClosedOutside(objs, r, open + {id})
      invariant forall j :: 0 <= j < i ==> kids[j] in r
      invariant forall k :: |visited| <= k < |r| ==> Below(objs, id, r[k])
    {
      var prev := r;
      CollectCallReady(objs, id, visited, prev);
      r := CollectIds(objs, kids[i], prev, open + {id});
      CollectStep(objs, id, visited, kids, i, prev, r);
      i := i + 1;
    }
  }

  /** Before collecting a child: the ids visited now strictly include those visited on entry. */
  lemma CollectCallReady(objs: Objects, id: string, visited: seq<string>, prev: seq<string>)
    requires |visited| < |prev| && prev[..|visited|] == visited && prev[|visited|] == id
    ensures (set x | x in visited) + {id} <= (set x | x in prev)
  {
    forall x | x in visited ensures x in prev {
      var k :| 0 <= k < |visited| && visited[k] == x;
      assert prev[k] == prev[..|visited|][k];
    }
  }

  /** After collecting child `i`: the loop's facts hold for the next child. */
  lemma CollectStep(objs: Objects, id: string, visited: seq<string>, kids: seq<string>, i: nat,
                    prev: seq<string>, r: seq<string>)
    requires id in objs && kids == objs[id].children && i < |kids|
    requires |visited| < |prev| && prev[..|visited|] == visited && prev[|visited|] == id
    requires forall j :: 0 <= j < i ==> kids[j] in prev
    requires forall k :: |visited| <= k < |prev| ==> Below(objs, id, prev[k])
    requires |prev| <= |r| && r[..|prev|] == prev && kids[i] in r
    requires forall k :: |prev| <= k < |r| ==> Below(objs, kids[i], r[k])
    ensures |visited| < |r| && r[..|visited|] == visited && r[|visited|] == id
    ensures forall j :: 0 <= j < i + 1 ==> kids[j] in r
    ensures forall k :: |visited| <= k < |r| ==> Below(objs, id, r[k])
  {
    forall k | 0 <= k < |prev| ensures r[k] == prev[k] {
      assert r[k] == r[..|prev|][k];
    }
    forall j | 0 <= j < i + 1 ensures kids[j] in r {
      if j < i {
        var k :| 0 <= k < |prev| && prev[k] == kids[j];
        assert r[k] == kids[j];
      }
    }
    forall k | |visited| <= k < |r| ensures Below(objs, id, r[k]) {
      if k >= |prev| {
        BelowChild(objs, id, kids[i], r[k]);
      } else {
        assert r[k] == prev[k];
      }
    }
    assert r[..|visited|] == prev[..|visited|];
  }

  /** Some requested non-root id has `x` below it. */
  ghost predicate FromRequested(objs: Objects, ids: seq<string>, root: string, x: string) {
    exists j :: 0 <= j < |ids| && ids[j] != root && Below(objs, ids[j], x)
  }

  /**
   * Step 1 of `execute`: collect each requested id but the root with
   * everything below it. The stored objects collected are exactly those
   * the requested subtrees hold, each once, and never the root.
   */
  method Collect(objs: Objects, root: string, ids: seq<string>) returns (collected: seq<string>)
    ensures NoDup(collected)
    ensures forall j :: 0 <= j < |ids| && ids[j] != root ==> ids[j] in collected
    ensures forall x :: x in collected ==> FromRequested(objs, ids, root, x)
    ensures forall y :: y in objs ==> (y in collected <==> y in Doomed(objs, ids, root))
    ensures TreeConsistent(objs, root) ==> root !in collected
  {
    collected := [];
    var i := 0;
    while i < |ids|
      invariant i <= |ids| && NoDup(collected)
      invariant ClosedOutside(objs, collected, {})
      invariant forall j :: 0 <= j < i && ids[j] != root ==> ids[j] in collected
      invariant forall x :: x in collected ==> FromRequested(objs, ids[..i], root, x)
    {
      if ids[i] != root {
        var prev := collected;
        collected := CollectIds(objs, ids[i], prev, {});
        RequestedStep(objs, ids, root, i, prev, collected);
      } else {
        RequestedSkip(objs, ids, root, i, collected);
      }
      i := i + 1;
    }
    assert ids[..i] == ids;
    CollectedIsDoomed(objs, ids, root, collected);
  }

  /** Collecting below a requested id keeps every collected id below some requested one. */
  lemma RequestedStep(objs: Objects, ids: seq<string>, root: string, i: nat, prev: seq<string>, collected: seq<string>)
    requires i < |ids| && ids[i] != root
    requires forall x :: x in prev ==> FromRequested(objs, ids[..i], root, x)
    requires |prev| <= |collected| && collected[..|prev|] == prev
    requires forall k :: |prev| <= k < |collected| ==> Below(objs, ids[i], collected[k])
    ensures forall x :: x in collected ==> FromRequested(objs, ids[..i + 1], root, x)
  {
    forall x | x in collected ensures FromRequested(objs, ids[..i + 1], root, x) {
      var k :| 0 <= k < |collected| && collected[k] == x;
      if k < |prev| {
        assert collected[k] == collected[..|prev|][k];
        assert x in prev;
        var j :| 0 <= j < i && ids[..i][j] != root && Below(objs, ids[..i][j], x);
        assert ids[..i + 1][j] == ids[..i][j];
      } else {
        assert ids[..i + 1][i] == ids[i];
      }
    }
  }

  /** Skipping the root keeps every collected id below some requested one. */
  lemma RequestedSkip(objs: Objects, ids: seq<string>, root: string, i: nat, collected: seq<string>)
    requires i < |ids|
    requires forall x :: x in collected ==> FromRequested(objs, ids[..i], root, x)
    ensures forall x :: x in collected ==> FromRequested(objs, ids[..i + 1], root, x)
  {
    forall x | x in collected ensures FromRequested(objs, ids[..i + 1], root, x) {
      var j :| 0 <= j < i && ids[..i][j] != root && Below(objs, ids[..i][j], x);
      assert ids[..i + 1][j] == ids[..i][j];
    }
  }

  /** A closed collection of the requested subtrees holds exactly the doomed objects, and never the root. */
  lemma CollectedIsDoomed(objs: Objects, ids: seq<string>, root: string, collected: seq<string>)
    requires ClosedOutside(objs, collected, {})
    requires forall j :: 0 <= j < |ids| && ids[j] != root ==> ids[j] in collected
    requires forall x :: x in collected ==> FromRequested(objs, ids, root, x)
    ensures forall y :: y in objs ==> (y in collected <==> y in Doomed(objs, ids, root))
    ensures TreeConsistent(objs, root) ==> root !in collected
  {
    forall y | y in objs ensures y in collected <==> y in Doomed(objs, ids, root) {
      CollectedIsDoomedAt(objs, ids, root, collected, y);
    }
    if TreeConsistent(objs, root) && root in collected {
      RootNeverBelow(objs, ids, root);
    }
  }

  lemma CollectedIsDoomedAt(objs: Objects, ids: seq<string>, root: string, collected: seq<string>, y: string)
    requires ClosedOutside(objs, collected, {})
    requires forall j :: 0 <= j < |ids| && ids[j] != root ==> ids[j] in collected
    requires forall x :: x in collected ==> FromRequested(objs, ids, root, x)
    requires y in objs
    ensures y in collected <==> y in Doomed(objs, ids, root)
  {
    if y in collected {
      assert FromRequested(objs, ids, root, y);
      var j :| 0 <= j < |ids| && ids[j] != root && Below(objs, ids[j], y);
      BelowReachable(objs, ids[j], y);
      assert y in Doomed(objs, ids, root);
    }
    if y in Doomed(objs, ids, root) {
      var j :| 0 <= j < |ids| && ids[j] != root && Reachable(objs, ids[j], y);
      assert ids[j] in collected;
      ClosedReach(objs, collected, ids[j], y);
    }
  }

  /** In a consistent tree the root is below no other object. */
  lemma RootNeverBelow(objs: Objects, ids: seq<string>, root: string)
    requires TreeConsistent(objs, root)
    ensures !FromRequested(objs, ids, root, root)
  {
    if FromRequested(objs, ids, root, root) {
      var j :| 0 <= j < |ids| && ids[j] != root && Below(objs, ids[j], root);
      assert root in objs;
      BelowReachable(objs, ids[j], root);
      RootReachedOnlyFromItself(objs, root, ids[j]);
    }
  }

  /**
   * Step 2 of `execute`: a copy of each collected object the scene holds, in
   * collection order.
   */
  method TakeSnapshots(objs: Objects, root: string, collected: seq<string>) returns (snaps: seq<SceneObject>)
    requires StoredUnderOwnId(objs) && NoDup(collected) && root !in collected
    ensures SnapIds(snaps) == (set x | x in collected && x in objs)
    ensures Snapshotted(objs, root, snaps, objs.Keys - SnapIds(snaps))
  {
    ghost var taken := set x | x in collected && x in objs;
    snaps := [];
    var i := 0;
    while i < |collected|
      invariant i <= |collected|
      invariant Snapshotted(objs, root, snaps, objs.Keys - taken)
      invariant SnapIds(snaps) == (set x | x in collected[..i] && x in objs)
    {
      var id := collected[i];
      assert collected[..i + 1] == collected[..i] + [id];
      if id in objs {
        assert forall k :: 0 <= k < i ==> collected[..i][k] == collected[k] != id;
        SnapIdsAppend(snaps, objs[id]);
        snaps := snaps + [objs[id]];
      }
      i := i + 1;
    }
    assert collected[..i] == collected;
  }

  /** What holds once `removeObject` has run for `ids[..i]`: `cur` is the tree pruned of their subtrees. */
  ghost predicate PrunedSoFar(objs: Objects, root: string, ids: seq<string>, i: nat, cur: Objects)
    requires i <= |ids|
  {
    var gone := Doomed(objs, ids[..i], root);
    && TreeConsistent(cur, root)
    && PrunedTo(objs, cur, objs.Keys - gone)
    && DescendantsIncluded(objs, gone)
  }

  lemma PrunedSoFarStart(objs: Objects, root: string, ids: seq<string>)
    requires TreeConsistent(objs, root)
    ensures PrunedSoFar(objs, root, ids, 0, objs)
  {
    assert ids[..0] == [];
    assert Doomed(objs, ids[..0], root) == {};
    PrunedToAll(objs, root);
    assert objs.Keys - {} == objs.Keys;
  }

  /** `removeObject(ids[i])` on a stored id other than the root prunes its subtree too. */
  lemma RemoveSubtreesPrunes(objs: Objects, root: string, ids: seq<string>, i: nat, cur: Objects, next: Objects)
    requires TreeConsistent(objs, root)
    requires i < |ids| && PrunedSoFar(objs, root, ids, i, cur)
    requires ids[i] != root && ids[i] in cur
    requires RemovedFrom(cur, ids[i], next) && TreeConsistent(next, root)
    ensures PrunedSoFar(objs, root, ids, i + 1, next)
  {
    var id := ids[i];
    var gone := Doomed(objs, ids[..i], root);
    var gone' := Doomed(objs, ids[..i + 1], root);
    DoomedStep(objs, ids, i, root);
    var d := Descendants(objs, id);
    var keys := objs.Keys - gone;
    PruneStep(objs, root, keys, cur, id, next);
    RemainingAfterMore(objs.Keys, gone, d);
  }

  lemma RemainingAfterMore<T>(all: set<T>, gone: set<T>, d: set<T>)
    requires gone <= all && d <= all
    ensures (all - gone) - d == all - (gone + d)
    ensures all - ((all - gone) - d) == gone + d
  {
  }

  /** Skipping the root, or an id already removed, leaves nothing new to prune. */
  lemma RemoveSubtreesSkips(objs: Objects, root: string, ids: seq<string>, i: nat, cur: Objects)
    requires i < |ids| && PrunedSoFar(objs, root, ids, i, cur)
    requires ids[i] == root || ids[i] !in cur
    ensures PrunedSoFar(objs, root, ids, i + 1, cur)
  {
    var gone := Doomed(objs, ids[..i], root);
    DoomedStep(objs, ids, i, root);
    if ids[i] != root {
      DescendantsOfRemoved(objs, gone, ids[i]);
    }
    assert Doomed(objs, ids[..i + 1], root) == gone;
  }

  /**
   * Step 3 of `execute`: `removeObject` for each requested id but the root.
   * On a consistent tree this prunes exactly the requested subtrees.
   */
  method RemoveSubtrees(store: SceneStore.Store, ids: seq<string>, now: string)
    requires TreeConsistent(store.scene.objects, store.scene.root)
    modifies store`scene, store`isDirty
    ensures store.scene.root == old(store.scene.root) && TreeConsistent(store.scene.objects, store.scene.root)
    ensures PrunedTo(old(store.scene.objects), store.scene.objects,
                     old(store.scene.objects).Keys - Doomed(old(store.scene.objects), ids, old(store.scene.root)))
  {
    var objs := store.scene.objects;
    var root := store.scene.root;
    PrunedSoFarStart(objs, root, ids);
    var i := 0;
    while i < |ids|
      invariant i <= |ids|
      invariant store.scene.root == root
      invariant PrunedSoFar(objs, root, ids, i, store.scene.objects)
    {
      ghost var cur := store.scene.objects;
      if ids[i] != root {
        store.RemoveObject(ids[i], now);
      }
      if ids[i] != root && ids[i] in cur {
        RemoveSubtreesPrunes(objs, root, ids, i, cur, store.scene.objects);
      } else {
        RemoveSubtreesSkips(objs, root, ids, i, cur);
      }
      i := i + 1;
    }
    assert ids[..i] == ids;
  }

  lemma DeletedStateOf(before: Objects, root: string, ids: seq<string>, collected: seq<string>, gone: set<string>,
                       snaps: seq<SceneObject>, cur: Objects)
    requires TreeConsistent(before, root) && gone == Doomed(before, ids, root)
    requires forall y :: y in before ==> (y in collected <==> y in gone)
    requires SnapIds(snaps) == (set x | x in collected && x in before)
    requires Snapshotted(before, root, snaps, before.Keys - SnapIds(snaps))
    requires PrunedTo(before, cur, before.Keys - gone)
    ensures DeletedState(before, root, gone, cur, snaps)
  {
    assert SnapIds(snaps) == gone;
  }

  // ---------------------------------------------------------------------------
  // The command
  // ---------------------------------------------------------------------------

  class DeleteObjectsCommand {
    const objectIds: seq<string>
    var deletedObjects: seq<SceneObject>
    /** The objects and root `execute` last ran on, and the ids it removed. */
    ghost var sceneBefore: Objects
    ghost var rootBefore: string
    ghost var removed: set<string>

    constructor (objectIds: seq<string>)
      ensures this.objectIds == objectIds && deletedObjects == []
    {
      this.objectIds := objectIds;
      deletedObjects := [];
      sceneBefore := map[];
      rootBefore := "";
      removed := {};
    }

    /**
     * `execute()`: snapshot every object in the requested subtrees, remove the
     * subtrees, clear the selection. On a consistent tree, what remains is the
     * tree pruned of exactly those subtrees, and each removed object is
     * snapshotted once.
     */
    method Execute(store: SceneStore.Store, editor: EditorStore.Store, now: string)
      requires TreeConsistent(store.scene.objects, store.scene.root)
      modifies this`deletedObjects, this`sceneBefore, this`rootBefore, this`removed, store`scene, store`isDirty, editor
      ensures sceneBefore == old(store.scene.objects) && rootBefore == old(store.scene.root)
      ensures removed == Doomed(sceneBefore, objectIds, rootBefore)
      ensures DeletedState(sceneBefore, rootBefore, removed, store.scene.objects, deletedObjects)
      ensures store.scene.root == rootBefore && TreeConsistent(store.scene.objects, store.scene.root)
      ensures editor.State() == old(editor.State()).(selectedIds := [], activeId := None)
    {
      var objs := store.scene.objects;
      var root := store.scene.root;
      var collected := Collect(objs, root, objectIds);
      var snaps := TakeSnapshots(objs, root, collected);
      deletedObjects := snaps;
      sceneBefore := objs;
      rootBefore := root;
      removed := Doomed(objs, objectIds, root);
      RemoveSubtrees(store, objectIds, now);
      editor.ClearSelection();
      DeletedStateOf(sceneBefore, rootBefore, objectIds, collected, removed, deletedObjects, store.scene.objects);
    }

    /**
     * `undo()`: restore every snapshot in turn and select the requested ids.
     * Right after `execute`, this gives back every object: each removed one
     * as it was, each other one with the same children, possibly reordered.
     */
    method Undo(store: SceneStore.Store, editor: EditorStore.Store, now: string)
      modifies store`scene, store`isDirty, editor
      ensures store.scene.objects == RestoredAll(old(store.scene.objects), deletedObjects)
      ensures store.scene.root == old(store.scene.root)
      ensures editor.State() == old(editor.State()).(selectedIds := objectIds, activeId := ActiveOf(objectIds))
      ensures DeletedState(sceneBefore, rootBefore, removed, old(store.scene.objects), deletedObjects) ==>
        UndoneState(sceneBefore, store.scene.objects, deletedObjects)
    {
      var i := 0;
      while i < |deletedObjects|
        invariant i <= |deletedObjects|
        invariant RestoredAll(store.scene.objects, deletedObjects[i..]) == RestoredAll(old(store.scene.objects), deletedObjects)
        invariant store.scene.root == old(store.scene.root)
        invariant editor.State() == old(editor.State())
      {
        var rest := deletedObjects[i..];
        assert rest[0] == deletedObjects[i] && rest[1..] == deletedObjects[i + 1..];
        store.RestoreObject(deletedObjects[i], now);
        i := i + 1;
      }
      editor.Select(objectIds, false);
      if DeletedState(sceneBefore, rootBefore, removed, old(store.scene.objects), deletedObjects) {
        DeleteUndone(sceneBefore, rootBefore, removed, old(store.scene.objects), deletedObjects);
      }
    }
  }
}
