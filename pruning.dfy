/**
 * What a series of `removeObject` calls leaves of a consistent tree, and
 * what a series of `restoreObject` calls of the removed objects' snapshots
 * gives back. Removing subtrees prunes the map: the surviving objects are
 * unchanged except that their child lists lose the removed ids. Restoring
 * the snapshots brings every object back, with each child list holding the
 * same ids as before, possibly in another order.
 */
module Pruning {
  import opened Wrappers
  import opened Seqs
  import opened SceneModel
  import opened SceneGraph
  import opened SceneEdits

  // ---------------------------------------------------------------------------
  // Pruned maps
  // ---------------------------------------------------------------------------

  /** The ids of `s` that are in `keys`, in order. */
  function Keep(s: seq<string>, keys: set<string>): (r: seq<string>)
    ensures forall y :: y in r <==> y in s && y in keys
    ensures NoDup(s) ==> NoDup(r)
  {
    if s == [] then []
    else
      var rest := Keep(s[1..], keys);
      if s[0] !in keys then rest
      else
        assert NoDup(s) ==> s[0] !in rest && NoDup(s[1..]) by {
          if NoDup(s) {
            HeadNotInTail(s);
            TailNoDup(s);
          }
        }
        [s[0]] + rest
  }

  /** `Keep` only looks at the ids of `s`. */
  lemma {:induction false} KeepAgrees(s: seq<string>, a: set<string>, b: set<string>)
    requires forall y :: y in s ==> (y in a <==> y in b)
    ensures Keep(s, a) == Keep(s, b)
    decreases |s|
  {
    if s != [] {
      assert forall y :: y in s[1..] ==> y in s;
      KeepAgrees(s[1..], a, b);
    }
  }

  /** Dropping one id after keeping is keeping without that id. */
  lemma {:induction false} WithoutKeep(s: seq<string>, keys: set<string>, x: string)
    ensures Without(Keep(s, keys), x) == Keep(s, keys - {x})
    decreases |s|
  {
    if s != [] {
      WithoutKeep(s[1..], keys, x);
      if s[0] in keys {
        var rest := Keep(s[1..], keys);
        assert ([s[0]] + rest)[0] == s[0] && ([s[0]] + rest)[1..] == rest;
      }
    }
  }

  /** Keeping every listed id keeps the list. */
  lemma {:induction false} KeepAll(s: seq<string>, keys: set<string>)
    requires forall y :: y in s ==> y in keys
    ensures Keep(s, keys) == s
    decreases |s|
  {
    if s != [] {
      assert forall y :: y in s[1..] ==> y in s;
      KeepAll(s[1..], keys);
      assert [s[0]] + s[1..] == s;
    }
  }

  /**
   * `cur` is `before` cut down to the objects `keys`: the same objects, each
   * child list keeping only the ids in `keys`.
   */
  ghost predicate PrunedTo(before: Objects, cur: Objects, keys: set<string>) {
    && cur.Keys == keys
    && keys <= before.Keys
    && forall a {:trigger cur[a]} :: a in cur ==> cur[a] == before[a].(children := Keep(before[a].children, keys))
  }

  /** Everything below an object of `gone` is in `gone`. */
  ghost predicate DescendantsIncluded(objs: Objects, gone: set<string>) {
    forall x, y :: x in gone && Reachable(objs, x, y) ==> y in gone
  }

  /** `r` and everything below it. */
  ghost function Descendants(objs: Objects, r: string): (d: set<string>)
    ensures d <= objs.Keys
  {
    set y | y in objs && Reachable(objs, r, y)
  }

  /** The objects removed by `removeObject(ids[0])`, …, `removeObject(ids[n-1])`, the root left alone. */
  ghost function Doomed(objs: Objects, ids: seq<string>, root: string): (d: set<string>)
    ensures d <= objs.Keys
  {
    set y | y in objs && exists j :: 0 <= j < |ids| && ids[j] != root && Reachable(objs, ids[j], y)
  }

  lemma DoomedStep(objs: Objects, ids: seq<string>, i: nat, root: string)
    requires i < |ids|
    ensures Doomed(objs, ids[..i + 1], root) ==
      Doomed(objs, ids[..i], root) + (if ids[i] != root then Descendants(objs, ids[i]) else {})
  {
    var pre := ids[..i];
    var now := ids[..i + 1];
    assert forall j :: 0 <= j < i ==> now[j] == pre[j];
    assert now[i] == ids[i];
    forall y | y in Doomed(objs, now, root)
      ensures y in Doomed(objs, pre, root) + (if ids[i] != root then Descendants(objs, ids[i]) else {})
    {
      var j :| 0 <= j < |now| && now[j] != root && Reachable(objs, now[j], y);
      if j < i {
        assert pre[j] == now[j];
      }
    }
    forall y | y in Doomed(objs, pre, root) ensures y in Doomed(objs, now, root) {
      var j :| 0 <= j < |pre| && pre[j] != root && Reachable(objs, pre[j], y);
      assert now[j] == pre[j];
    }
    if ids[i] != root {
      forall y | y in Descendants(objs, ids[i]) ensures y in Doomed(objs, now, root) {
        assert now[i] == ids[i];
      }
    }
  }

  lemma DescendantsOfDescendant(objs: Objects, r: string)
    ensures DescendantsIncluded(objs, Descendants(objs, r))
  {
    forall x, y | x in Descendants(objs, r) && Reachable(objs, x, y) ensures y in Descendants(objs, r) {
      PathConcat(objs, r, x, y);
      var p :| IsChildPath(objs, p) && p[0] == x && p[|p| - 1] == y;
    }
  }

  // ---------------------------------------------------------------------------
  // One removal
  // ---------------------------------------------------------------------------

  /** In the pruned map, what lies below a surviving object is what lay below it before and survived. */
  lemma PrunedReach(before: Objects, cur: Objects, keys: set<string>, r: string, k: string)
    requires PrunedTo(before, cur, keys) && DescendantsIncluded(before, before.Keys - keys)
    requires r in keys && k in keys
    ensures Reachable(cur, r, k) <==> Reachable(before, r, k)
  {
    if Reachable(cur, r, k) {
      PrunedPathIsPath(before, cur, keys, r, k);
    }
    if Reachable(before, r, k) {
      PathSurvivesPruning(before, cur, keys, r, k);
    }
  }

  lemma PrunedPathIsPath(before: Objects, cur: Objects, keys: set<string>, r: string, k: string)
    requires PrunedTo(before, cur, keys) && Reachable(cur, r, k)
    ensures Reachable(before, r, k)
  {
    var p :| IsChildPath(cur, p) && p[0] == r && p[|p| - 1] == k;
    forall i, j | 0 <= i && j == i + 1 && j < |p| ensures p[j] in before[p[i]].children {
      assert p[j] in cur[p[i]].children;
    }
    assert IsChildPath(before, p);
  }

  lemma PathSurvivesPruning(before: Objects, cur: Objects, keys: set<string>, r: string, k: string)
    requires PrunedTo(before, cur, keys) && DescendantsIncluded(before, before.Keys - keys)
    requires r in keys && k in keys && Reachable(before, r, k)
    ensures Reachable(cur, r, k)
  {
    var p :| IsChildPath(before, p) && p[0] == r && p[|p| - 1] == k;
    forall i | 0 <= i < |p| ensures p[i] in keys {
      PathStaysKept(before, keys, p, k, i);
    }
    forall i, j | 0 <= i && j == i + 1 && j < |p| ensures p[j] in cur[p[i]].children {
      assert p[j] in before[p[i]].children;
    }
    assert IsChildPath(cur, p);
  }

  /** Every object on a path to a kept object is kept, since removal takes whole subtrees. */
  lemma PathStaysKept(before: Objects, keys: set<string>, p: seq<string>, k: string, i: nat)
    requires keys <= before.Keys && DescendantsIncluded(before, before.Keys - keys)
    requires IsChildPath(before, p) && p[|p| - 1] == k && k in keys && i < |p|
    ensures p[i] in keys
  {
    var suffix := p[i..];
    assert IsChildPath(before, suffix);
    assert suffix[0] == p[i] && suffix[|suffix| - 1] == k;
    assert Reachable(before, p[i], k);
  }

  /** A child list of an object outside the removed subtree mentions at most its root, and only from the parent. */
  lemma ChildInSubtree(before: Objects, r: string, a: string, c: string)
    requires ChildrenPointBack(before)
    requires a in before && c in before[a].children && Reachable(before, r, c)
    requires !Reachable(before, r, a)
    ensures c == r && before[r].parentId == Some(a)
  {
    if c != r {
      var q := PathLastStep(before, r, c);
      assert false;
    }
  }

  /** Whether a child of a survivor stays listed is decided by the removed subtree's root alone. */
  lemma KeptChild(before: Objects, keys: set<string>, r: string, a: string, isParent: bool, y: string)
    requires ChildrenPointBack(before) && r in before
    requires a in before && y in before[a].children && !Reachable(before, r, a)
    requires isParent <==> before[r].parentId == Some(a)
    ensures y in keys - Descendants(before, r) <==> y in (if isParent then keys - {r} else keys)
  {
    if Reachable(before, r, y) {
      ChildInSubtree(before, r, a, y);
    }
    PathSingleton(before, r);
  }

  /** The child list `removeObject(r)` leaves an object of the pruned map. */
  lemma PrunedChildren(before: Objects, keys: set<string>, cur: Objects, r: string, a: string)
    requires ChildrenPointBack(before)
    requires PrunedTo(before, cur, keys) && r in keys && a in keys
    requires Present(before[r].parentId) && !Reachable(before, r, a)
    ensures Unlinked(cur, r)[a].children == Keep(before[a].children, keys - Descendants(before, r))
  {
    var s := before[a].children;
    var d := Descendants(before, r);
    var isParent := before[r].parentId == Some(a);
    assert cur[r].parentId == before[r].parentId;
    assert cur[a].children == Keep(s, keys);
    assert Unlinked(cur, r)[a].children == if isParent then Without(Keep(s, keys), r) else Keep(s, keys);
    forall y | y in s ensures (y in keys - d <==> y in (if isParent then keys - {r} else keys)) {
      KeptChild(before, keys, r, a, isParent, y);
    }
    if isParent {
      WithoutKeep(s, keys, r);
      KeepAgrees(s, keys - d, keys - {r});
    } else {
      KeepAgrees(s, keys - d, keys);
    }
  }

  /**
   * Removing a surviving non-root object from the pruned map prunes its whole
   * subtree, as it stood before any removal.
   */
  lemma PruneStep(before: Objects, root: string, keys: set<string>, cur: Objects, r: string, next: Objects)
    requires TreeConsistent(before, root)
    requires PrunedTo(before, cur, keys) && DescendantsIncluded(before, before.Keys - keys)
    requires r in keys && r != root
    requires RemovedFrom(cur, r, next)
    ensures PrunedTo(before, next, keys - Descendants(before, r))
    ensures DescendantsIncluded(before, before.Keys - (keys - Descendants(before, r)))
  {
    PruneStepEntries(before, root, keys, cur, r, next);
    var d := Descendants(before, r);
    DescendantsOfDescendant(before, r);
    IncludedUnion(before, before.Keys - keys, d);
    assert before.Keys - (keys - d) == (before.Keys - keys) + d;
  }

  lemma PruneStepEntries(before: Objects, root: string, keys: set<string>, cur: Objects, r: string, next: Objects)
    requires TreeConsistent(before, root)
    requires PrunedTo(before, cur, keys) && DescendantsIncluded(before, before.Keys - keys)
    requires r in keys && r != root
    requires RemovedFrom(cur, r, next)
    ensures PrunedTo(before, next, keys - Descendants(before, r))
  {
    var d := Descendants(before, r);
    var k2 := keys - d;
    assert ListedByParent(before, r);
    forall k | k in keys ensures Reachable(cur, r, k) <==> Reachable(before, r, k) {
      PrunedReach(before, cur, keys, r, k);
    }
    assert next.Keys == k2;
    forall a | a in next ensures next[a] == before[a].(children := Keep(before[a].children, k2)) {
      assert next[a] == Unlinked(cur, r)[a];
      PrunedChildren(before, keys, cur, r, a);
    }
  }

  lemma IncludedUnion(objs: Objects, g1: set<string>, g2: set<string>)
    requires DescendantsIncluded(objs, g1) && DescendantsIncluded(objs, g2)
    ensures DescendantsIncluded(objs, g1 + g2)
  {
  }

  /** A consistent tree is pruned to all of its objects. */
  lemma PrunedToAll(objs: Objects, root: string)
    requires TreeConsistent(objs, root)
    ensures PrunedTo(objs, objs, objs.Keys)
    ensures DescendantsIncluded(objs, {})
  {
    forall a | a in objs ensures objs[a] == objs[a].(children := Keep(objs[a].children, objs.Keys)) {
      KeepAll(objs[a].children, objs.Keys);
    }
  }

  /** An object that is already removed, or was never stored, has nothing left below it to remove. */
  lemma DescendantsOfRemoved(objs: Objects, gone: set<string>, id: string)
    requires DescendantsIncluded(objs, gone) && id !in objs.Keys - gone
    ensures Descendants(objs, id) <= gone
  {
    forall y | y in Descendants(objs, id) ensures y in gone {
      var p :| IsChildPath(objs, p) && p[0] == id && p[|p| - 1] == y;
    }
  }

  // ---------------------------------------------------------------------------
  // Restoring the snapshots
  // ---------------------------------------------------------------------------

  /** The ids of a list of snapshots. */
  ghost function SnapIds(snaps: seq<SceneObject>): set<string> {
    set o | o in snaps :: o.id
  }

  lemma SnapIdsAppend(snaps: seq<SceneObject>, o: SceneObject)
    ensures SnapIds(snaps + [o]) == SnapIds(snaps) + {o.id}
    ensures forall k :: 0 <= k < |snaps| ==> snaps[k].id in SnapIds(snaps)
  {
    forall k | 0 <= k < |snaps| ensures snaps[k].id in SnapIds(snaps) {
      assert snaps[k] in snaps;
    }
    assert forall x :: x in snaps + [o] <==> x in snaps || x == o;
  }

  /** `restoreObject` applied to each snapshot in turn. */
  function RestoredAll(objs: Objects, snaps: seq<SceneObject>): (r: Objects)
    ensures r.Keys == objs.Keys + SnapIds(snaps)
    decreases |snaps|
  {
    if snaps == [] then objs
    else
      RestoredShape(objs, snaps[0]);
      assert SnapIds(snaps) == {snaps[0].id} + SnapIds(snaps[1..]) by {
        assert snaps == [snaps[0]] + snaps[1..];
      }
      RestoredAll(Restored(objs, snaps[0]), snaps[1..])
  }

  /**
   * Each snapshot is the object of `before` stored under its id, never the
   * root and never one of `avoid`, and no id is snapshotted twice.
   */
  ghost predicate Snapshotted(before: Objects, root: string, snaps: seq<SceneObject>, avoid: set<string>) {
    && (forall i :: 0 <= i < |snaps| ==>
          snaps[i].id in before && snaps[i] == before[snaps[i].id] && snaps[i].id != root && snaps[i].id !in avoid)
    && (forall i, j :: 0 <= i < j < |snaps| ==> snaps[i].id != snaps[j].id)
  }

  /**
   * Half-way through the restores: `back` holds restored objects, exactly as
   * before; the other objects, `keys`, differ from before only in child lists
   * that list, without repeats, the children present again.
   */
  ghost predicate Restoring(before: Objects, cur: Objects, keys: set<string>, back: set<string>) {
    && cur.Keys == keys + back
    && keys !! back
    && keys + back <= before.Keys
    && (forall a {:trigger cur[a]} :: a in back ==> cur[a] == before[a])
    && (forall a {:trigger cur[a]} :: a in keys ==>
          && cur[a] == before[a].(children := cur[a].children)
          && NoDup(cur[a].children)
          && forall c :: c in cur[a].children <==> c in before[a].children && c in keys + back)
  }

  /** A pruned consistent tree is where the restores start. */
  lemma PrunedRestoring(before: Objects, root: string, cur: Objects, keys: set<string>)
    requires TreeConsistent(before, root) && PrunedTo(before, cur, keys)
    ensures Restoring(before, cur, keys, {})
  {
    forall a | a in keys ensures NoDup(cur[a].children) {
      assert NoDup(before[a].children);
    }
  }

  /** The facts about a consistent tree that restoring relies on. */
  ghost predicate Restorable(before: Objects, root: string) {
    && ChildrenPointBack(before)
    && NonRootsListed(before, root)
    && forall k {:trigger before[k]} :: k in before ==> before[k].parentId != Some(k)
  }

  lemma TreeRestorable(before: Objects, root: string)
    requires TreeConsistent(before, root)
    ensures Restorable(before, root)
  {
    forall k | k in before ensures before[k].parentId != Some(k) {
      assert k != root ==> ListedByParent(before, k);
    }
  }

  /** Restoring one more snapshot of a removed non-root object keeps the restores on track. */
  lemma RestoreStep(before: Objects, root: string, cur: Objects, keys: set<string>, back: set<string>, o: SceneObject)
    requires Restorable(before, root) && Restoring(before, cur, keys, back)
    requires o.id in before && o == before[o.id] && o.id != root && o.id !in keys + back
    ensures Restoring(before, Restored(cur, o), keys, back + {o.id})
  {
    var d := o.id;
    assert ListedByParent(before, d);
    var p := o.parentId.value;
    assert p != d;
    var m := cur[d := o];
    if p in keys {
      assert d !in cur[p].children;
      RestoredUnderKept(before, cur, keys, back, o, p);
    } else {
      assert Restored(cur, o) == m;
      forall a | a in keys
        ensures forall c :: c in m[a].children <==> c in before[a].children && c in keys + back + {d}
      {
        assert d !in before[a].children;
      }
    }
  }

  /** The case of `RestoreStep` where the parent of the restored object was never removed. */
  lemma RestoredUnderKept(before: Objects, cur: Objects, keys: set<string>, back: set<string>, o: SceneObject, p: string)
    requires ChildrenPointBack(before) && Restoring(before, cur, keys, back)
    requires o.id in before && o == before[o.id] && o.id !in keys + back
    requires Present(o.parentId) && o.parentId.value == p && p in keys && o.id in before[p].children && o.id !in cur[p].children
    ensures Restoring(before, Restored(cur, o), keys, back + {o.id})
  {
    var d := o.id;
    var kids := cur[p].children + [d];
    var r := cur[d := o][p := cur[p].(children := kids)];
    assert Restored(cur, o) == r;
    assert NoDup(kids);
    assert forall c :: c in kids <==> c in before[p].children && c in keys + back + {d};
    forall a | a in keys && a != p
      ensures forall c :: c in cur[a].children <==> c in before[a].children && c in keys + back + {d}
    {
      assert d !in before[a].children;
    }
    RestoringAfterLink(before, cur, keys, back, o, p, kids, r);
  }

  /** `Restoring` for the map that restores `o` and appends it to its kept parent `p`. */
  lemma RestoringAfterLink(before: Objects, cur: Objects, keys: set<string>, back: set<string>, o: SceneObject, p: string,
                           kids: seq<string>, r: Objects)
    requires Restoring(before, cur, keys, back)
    requires o.id in before && o == before[o.id] && o.id !in keys + back && p in keys
    requires r == cur[o.id := o][p := cur[p].(children := kids)]
    requires NoDup(kids) && forall c :: c in kids <==> c in before[p].children && c in keys + back + {o.id}
    requires forall a :: a in keys && a != p ==>
               forall c :: c in cur[a].children <==> c in before[a].children && c in keys + back + {o.id}
    ensures Restoring(before, r, keys, back + {o.id})
  {
    var nb := back + {o.id};
    assert r.Keys == keys + nb;
    forall a | a in nb ensures r[a] == before[a] {
      if a != o.id {
        assert r[a] == cur[a];
      }
    }
    forall a | a in keys
      ensures r[a] == before[a].(children := r[a].children) && NoDup(r[a].children)
      ensures forall c :: c in r[a].children <==> c in before[a].children && c in keys + nb
    {
      if a != p {
        assert r[a] == cur[a];
        assert keys + nb == keys + back + {o.id};
      }
    }
  }

  /** Restoring a list of snapshots, in order. */
  lemma {:induction false} RestoreEach(before: Objects, root: string, cur: Objects, keys: set<string>, back: set<string>,
                                       snaps: seq<SceneObject>)
    requires Restorable(before, root) && Restoring(before, cur, keys, back)
    requires Snapshotted(before, root, snaps, keys + back)
    ensures Restoring(before, RestoredAll(cur, snaps), keys, back + SnapIds(snaps))
    decreases |snaps|
  {
    if snaps != [] {
      var o, rest := snaps[0], snaps[1..];
      RestoreEachStep(before, root, cur, keys, back, snaps);
      RestoreEach(before, root, Restored(cur, o), keys, back + {o.id}, rest);
      RestoredAllUnfold(cur, back, snaps);
    }
  }

  /** One restore keeps `Restoring`, and the remaining snapshots avoid the restored id. */
  lemma RestoreEachStep(before: Objects, root: string, cur: Objects, keys: set<string>, back: set<string>,
                        snaps: seq<SceneObject>)
    requires Restorable(before, root) && Restoring(before, cur, keys, back)
    requires Snapshotted(before, root, snaps, keys + back) && snaps != []
    ensures Restoring(before, Restored(cur, snaps[0]), keys, back + {snaps[0].id})
    ensures Snapshotted(before, root, snaps[1..], keys + (back + {snaps[0].id}))
  {
    RestoreStep(before, root, cur, keys, back, snaps[0]);
    SnapshottedTail(before, root, snaps, keys + back);
    assert keys + back + {snaps[0].id} == keys + (back + {snaps[0].id});
  }

  lemma RestoredAllUnfold(cur: Objects, back: set<string>, snaps: seq<SceneObject>)
    requires snaps != []
    ensures RestoredAll(cur, snaps) == RestoredAll(Restored(cur, snaps[0]), snaps[1..])
    ensures back + {snaps[0].id} + SnapIds(snaps[1..]) == back + SnapIds(snaps)
  {
    assert snaps == [snaps[0]] + snaps[1..];
    assert SnapIds(snaps) == {snaps[0].id} + SnapIds(snaps[1..]);
  }

  lemma SnapshottedTail(before: Objects, root: string, snaps: seq<SceneObject>, avoid: set<string>)
    requires Snapshotted(before, root, snaps, avoid) && snaps != []
    ensures Snapshotted(before, root, snaps[1..], avoid + {snaps[0].id})
  {
    var rest := snaps[1..];
    forall i | 0 <= i < |rest| ensures rest[i].id != snaps[0].id {
      assert rest[i] == snaps[i + 1];
    }
  }

  /**
   * What `execute` leaves of a consistent tree: the objects `gone` are removed
   * and the others pruned, and `snaps` holds every removed object, as it was, once.
   */
  ghost predicate DeletedState(before: Objects, root: string, gone: set<string>, cur: Objects, snaps: seq<SceneObject>) {
    && TreeConsistent(before, root)
    && PrunedTo(before, cur, before.Keys - gone)
    && Snapshotted(before, root, snaps, before.Keys - gone)
    && SnapIds(snaps) == gone
  }

  /**
   * `r` holds every object of `before`: each snapshotted one exactly as
   * snapshotted, each one as it was up to the order of its children.
   */
  ghost predicate UndoneState(before: Objects, r: Objects, snaps: seq<SceneObject>) {
    && r.Keys == before.Keys
    && (forall i :: 0 <= i < |snaps| ==> snaps[i].id in r && r[snaps[i].id] == snaps[i])
    && (forall a :: a in r ==>
          a in before && r[a] == before[a].(children := r[a].children)
          && multiset(r[a].children) == multiset(before[a].children))
  }

  /**
   * Restoring every snapshot of a deletion gives back every object: each
   * removed one exactly as it was, each other one with the same children,
   * possibly in another order.
   */
  lemma DeleteUndone(before: Objects, root: string, gone: set<string>, cur: Objects, snaps: seq<SceneObject>)
    requires DeletedState(before, root, gone, cur, snaps)
    ensures UndoneState(before, RestoredAll(cur, snaps), snaps)
  {
    var keys := before.Keys - gone;
    PrunedRestoring(before, root, cur, keys);
    TreeRestorable(before, root);
    RestoreEach(before, root, cur, keys, {}, snaps);
    var r := RestoredAll(cur, snaps);
    var back := {} + SnapIds(snaps);
    assert keys + back == before.Keys;
    forall a | a in r
      ensures r[a] == before[a].(children := r[a].children) && multiset(r[a].children) == multiset(before[a].children)
    {
      assert NoDup(before[a].children);
      UndoneAt(before, r, keys, back, a);
    }
  }

  /** Once every object is back, each one holds its old children, possibly in another order. */
  lemma UndoneAt(before: Objects, r: Objects, keys: set<string>, back: set<string>, a: string)
    requires Restoring(before, r, keys, back) && keys + back == before.Keys && a in r
    requires ChildrenPointBack(before) && NoDup(before[a].children)
    ensures r[a] == before[a].(children := r[a].children)
    ensures multiset(r[a].children) == multiset(before[a].children)
  {
    if a in keys {
      forall c ensures c in r[a].children <==> c in before[a].children {
        if c in before[a].children {
          assert c in before;
        }
      }
      SameMembersPermutation(r[a].children, before[a].children);
    }
  }
}
