/**
 * The edits the scene stores make to the object map, as functions of the map
 * before the edit, and what each does to the tree shape: which edits keep a
 * consistent tree consistent, and under which conditions.
 */
module SceneEdits {
  import opened Wrappers
  import opened Seqs
  import opened Values
  import opened SceneModel
  import opened SceneGraph

  // ---------------------------------------------------------------------------
  // Child lists
  // ---------------------------------------------------------------------------

  /** `children.filter((c) => c !== x)`. */
  function Without(s: seq<string>, x: string): (r: seq<string>)
    ensures forall y :: y in r <==> y in s && y != x
    ensures NoDup(s) ==> NoDup(r)
    ensures x !in s ==> r == s
  {
    if s == [] then []
    else
      var rest := Without(s[1..], x);
      if s[0] == x then rest
      else
        assert NoDup(s) ==> s[0] !in s[1..] by {
          if NoDup(s) {
            HeadNotInTail(s);
          }
        }
        [s[0]] + rest
  }

  /** `splice(index, 0, x)` for an index within `0..|s|`, `push(x)` otherwise. */
  function InsertAt(s: seq<string>, x: string, index: Option<int>): (r: seq<string>)
    ensures forall y :: y in r <==> y in s || y == x
    ensures |r| == |s| + 1
    ensures index.Some? && 0 <= index.value <= |s| ==> r[index.value] == x
    ensures !(index.Some? && 0 <= index.value <= |s|) ==> r == s + [x]
  {
    if index.Some? && 0 <= index.value <= |s| then s[..index.value] + [x] + s[index.value..]
    else s + [x]
  }

  lemma InsertAbsentKeepsNoDup(s: seq<string>, x: string, index: Option<int>)
    requires NoDup(s) && x !in s
    ensures NoDup(InsertAt(s, x, index))
  {
    var r := InsertAt(s, x, index);
    if index.Some? && 0 <= index.value <= |s| {
      var n := index.value;
      forall i, j | 0 <= i < j < |r| ensures r[i] != r[j] {
        if i < n && j < n {
          assert r[i] == s[i] && r[j] == s[j];
        } else if i < n && j == n {
          assert r[i] == s[i];
        } else if i < n {
          assert r[i] == s[i] && r[j] == s[j - 1];
        } else if i == n {
          assert r[j] == s[j - 1];
        } else {
          assert r[i] == s[i - 1] && r[j] == s[j - 1];
        }
      }
    } else {
      forall i, j | 0 <= i < j < |r| ensures r[i] != r[j] {
        if j < |s| {
          assert r[i] == s[i] && r[j] == s[j];
        } else {
          assert r[i] == s[i];
        }
      }
    }
  }

  /** How often `x` is listed in `s`. */
  function Count(s: seq<string>, x: string): nat {
    if s == [] then 0 else (if s[0] == x then 1 else 0) + Count(s[1..], x)
  }

  lemma {:induction false} CountPositive(s: seq<string>, x: string)
    requires x in s
    ensures Count(s, x) >= 1
  {
    if s[0] != x {
      assert x in s[1..];
      CountPositive(s[1..], x);
    }
  }

  lemma {:induction false} CountAppend(s: seq<string>, x: string)
    ensures Count(s + [x], x) == Count(s, x) + 1
  {
    if s != [] {
      assert (s + [x])[1..] == s[1..] + [x];
      CountAppend(s[1..], x);
    }
  }

  lemma {:induction false} CountAbsent(s: seq<string>, x: string)
    requires x !in s
    ensures Count(s, x) == 0
  {
    if s != [] {
      assert x !in s[1..];
      CountAbsent(s[1..], x);
    }
  }

  lemma {:induction false} NoDupCountAtMostOne(s: seq<string>, x: string)
    requires NoDup(s)
    ensures Count(s, x) <= 1
  {
    if s != [] {
      TailNoDup(s);
      if s[0] == x {
        HeadNotInTail(s);
        CountAbsent(s[1..], x);
      } else {
        NoDupCountAtMostOne(s[1..], x);
      }
    }
  }

  // ---------------------------------------------------------------------------
  // addObject
  // ---------------------------------------------------------------------------

  /** The object `addObject` builds before laying the caller's fields over it. */
  function DefaultObject(id: string, parentId: string): SceneObject {
    SceneObject(id, "New Object", Mesh, Some(parentId), [], true, false, IdentityTransform, None)
  }

  /** `obj.id || uuid()`: the caller's id unless it is missing or empty. */
  function ChosenId(patch: ObjectPatch, generated: string): string {
    if patch.id.Some? && patch.id.value != "" then patch.id.value else generated
  }

  /** `objects[parent].children.push(id)` when `parent` is non-empty and stored. */
  function LinkChild(objs: Objects, parent: string, id: string): Objects {
    if parent != "" && parent in objs then objs[parent := objs[parent].(children := objs[parent].children + [id])]
    else objs
  }

  /** The object map after `addObject(patch, parentId)` with `generated` as the id uuid() would return. */
  function Added(objs: Objects, patch: ObjectPatch, parentId: string, generated: string): Objects {
    var id := ChosenId(patch, generated);
    LinkChild(objs[id := Overlay(DefaultObject(id, parentId), patch)], parentId, id)
  }

  /**
   * What `addObject` promises: the new object sits under its id with every field
   * the caller gave and the defaults elsewhere; it is listed last among the
   * parent's children exactly when the parent exists; nothing else changes.
   */
  lemma AddedShape(objs: Objects, patch: ObjectPatch, parentId: string, generated: string)
    requires parentId != ChosenId(patch, generated)
    ensures var id := ChosenId(patch, generated);
      var r := Added(objs, patch, parentId, generated);
      && r.Keys == objs.Keys + {id}
      && r[id].name == (if patch.name.Some? then patch.name.value else "New Object")
      && r[id].kind == (if patch.kind.Some? then patch.kind.value else Mesh)
      && r[id].parentId == (if patch.parentId.Some? then patch.parentId.value else Some(parentId))
      && r[id].visible == (patch.visible != Some(false))
      && r[id].locked == (patch.locked == Some(true))
      && r[id].transform == (if patch.transform.Some? then patch.transform.value else IdentityTransform)
      && (parentId != "" && parentId in objs ==> r[parentId].children == objs[parentId].children + [id])
      && (!(parentId != "" && parentId in objs) ==> r[id] == Overlay(DefaultObject(id, parentId), patch))
      && (forall k :: k in objs && k != id && k != parentId ==> r[k] == objs[k])
      && (forall k :: k in objs && k != id && !(parentId != "" && parentId in objs) ==> r[k] == objs[k])
  {
  }

  /** Re-adding an id its parent already lists makes the parent list it twice. */
  lemma AddExistingIdDuplicatesChild(objs: Objects, patch: ObjectPatch, parentId: string, generated: string)
    requires parentId != "" && parentId in objs
    requires parentId != ChosenId(patch, generated)
    requires ChosenId(patch, generated) in objs[parentId].children
    ensures Count(Added(objs, patch, parentId, generated)[parentId].children, ChosenId(patch, generated)) >= 2
    ensures !NoDup(Added(objs, patch, parentId, generated)[parentId].children)
  {
    var id := ChosenId(patch, generated);
    var kids := objs[parentId].children;
    CountPositive(kids, id);
    CountAppend(kids, id);
    if NoDup(kids + [id]) {
      NoDupCountAtMostOne(kids + [id], id);
    }
  }

  /** Adding under a parent that does not exist leaves the new object naming a missing parent. */
  lemma AddUnderMissingParentDangles(objs: Objects, root: string, patch: ObjectPatch, parentId: string, generated: string)
    requires parentId != "" && parentId !in objs && parentId != ChosenId(patch, generated)
    requires patch.parentId.None?
    ensures var r := Added(objs, patch, parentId, generated);
      r[ChosenId(patch, generated)].parentId == Some(parentId) && parentId !in r
    ensures !TreeConsistent(Added(objs, patch, parentId, generated), root) || ChosenId(patch, generated) == root
  {
    var r := Added(objs, patch, parentId, generated);
    var id := ChosenId(patch, generated);
    assert id in r && (id != root ==> !ListedByParent(r, id));
  }

  /** The conditions under which `addObject` keeps a tree consistent. */
  ghost predicate AddIsWellFormed(objs: Objects, root: string, patch: ObjectPatch, parentId: string, generated: string) {
    && TreeConsistent(objs, root)
    && ChosenId(patch, generated) !in objs
    && parentId != "" && parentId in objs
    && patch.id != Some("")
    && (patch.parentId.None? || patch.parentId == Some(Some(parentId)))
    && (patch.children.None? || patch.children == Some([]))
  }

  lemma AddKeepsListing(objs: Objects, root: string, patch: ObjectPatch, parentId: string, generated: string)
    requires AddIsWellFormed(objs, root, patch, parentId, generated)
    ensures RootIsParentless(Added(objs, patch, parentId, generated), root)
    ensures StoredUnderOwnId(Added(objs, patch, parentId, generated))
    ensures NonRootsListed(Added(objs, patch, parentId, generated), root)
  {
    var id := ChosenId(patch, generated);
    var r := Added(objs, patch, parentId, generated);
    assert r[id].id == id && r[id].parentId == Some(parentId);
    forall k | k in r && k != root ensures ListedByParent(r, k) {
      if k != id {
        assert ListedByParent(objs, k);
      }
    }
  }

  lemma AddKeepsChildLinks(objs: Objects, root: string, patch: ObjectPatch, parentId: string, generated: string)
    requires AddIsWellFormed(objs, root, patch, parentId, generated)
    ensures ChildrenPointBack(Added(objs, patch, parentId, generated))
    ensures ChildListsDistinct(Added(objs, patch, parentId, generated))
  {
    var id := ChosenId(patch, generated);
    var r := Added(objs, patch, parentId, generated);
    assert r[id].children == [] && r[id].parentId == Some(parentId);
    forall a, c | a in r && c in r[a].children
      ensures c in r && r[c].parentId == Some(a)
    {
      if a == parentId && c == id {
      } else {
        assert c in objs[a].children;
      }
    }
    forall a | a in r ensures NoDup(r[a].children) {
      if a == parentId {
        assert id !in objs[a].children;
        InsertAbsentKeepsNoDup(objs[a].children, id, None);
      }
    }
  }

  lemma AddKeepsRanked(objs: Objects, root: string, patch: ObjectPatch, parentId: string, generated: string)
    requires AddIsWellFormed(objs, root, patch, parentId, generated)
    ensures Acyclic(Added(objs, patch, parentId, generated))
  {
    var id := ChosenId(patch, generated);
    var r := Added(objs, patch, parentId, generated);
    var rank :| Ranked(objs, rank);
    var rank' := rank[id := rank[parentId] + 1];
    assert r[id].children == [];
    forall a, c | a in r && c in r && c in r[a].children
      ensures rank'[a] < rank'[c]
    {
      if a == parentId && c == id {
      } else {
        assert a != id && c in objs[a].children;
        assert c in objs && c != id;
        assert rank[a] < rank[c];
      }
    }
    assert Ranked(r, rank');
  }

  /**
   * Adding a new id under an existing parent, without overriding the id,
   * parent or children fields, keeps the tree consistent.
   */
  lemma AddPreservesTree(objs: Objects, root: string, patch: ObjectPatch, parentId: string, generated: string)
    requires TreeConsistent(objs, root)
    requires ChosenId(patch, generated) !in objs
    requires parentId != "" && parentId in objs
    requires patch.id != Some("")
    requires patch.parentId.None? || patch.parentId == Some(Some(parentId))
    requires patch.children.None? || patch.children == Some([])
    ensures TreeConsistent(Added(objs, patch, parentId, generated), root)
  {
    AddKeepsListing(objs, root, patch, parentId, generated);
    AddKeepsChildLinks(objs, root, patch, parentId, generated);
    AddKeepsRanked(objs, root, patch, parentId, generated);
  }

  // ---------------------------------------------------------------------------
  // removeObject
  // ---------------------------------------------------------------------------

  /** The first half of `removeObject`: drop `id` from the children of the parent it names. */
  function Unlinked(objs: Objects, id: string): (r: Objects)
    requires id in objs
    ensures r.Keys == objs.Keys
    ensures forall k :: k in r ==>
      r[k].children == (if Present(objs[id].parentId) && k == objs[id].parentId.value
                        then Without(objs[k].children, id) else objs[k].children)
    ensures forall k :: k in r ==> r[k] == objs[k].(children := r[k].children)
  {
    var p := objs[id].parentId;
    if Present(p) && p.value in objs then
      objs[p.value := objs[p.value].(children := Without(objs[p.value].children, id))]
    else objs
  }

  /** An edge on a path leaving `id` survives unlinking `id`: it never leads back into `id`. */
  lemma UnlinkedKeepsPathEdge(objs: Objects, rank: map<string, nat>, id: string, p: seq<string>, i: nat)
    requires id in objs && Ranked(objs, rank)
    requires IsChildPath(objs, p) && p[0] == id && i < |p| - 1
    ensures p[i + 1] in Unlinked(objs, id)[p[i]].children
  {
    var pre := p[..i + 2];
    assert IsChildPath(objs, pre);
    PathRankMonotone(objs, rank, pre);
    assert pre[0] == id && pre[|pre| - 1] == p[i + 1];
    assert p[i + 1] != id;
  }

  /** Unlinking `id` from its parent does not change what lies below `id`. */
  lemma UnlinkedSubtree(objs: Objects, id: string, k: string)
    requires id in objs && Acyclic(objs)
    ensures Reachable(Unlinked(objs, id), id, k) <==> Reachable(objs, id, k)
  {
    if Reachable(Unlinked(objs, id), id, k) {
      UnlinkedPathIsPath(objs, id, k);
    }
    if Reachable(objs, id, k) {
      PathFromUnlinked(objs, id, k);
    }
  }

  lemma UnlinkedPathIsPath(objs: Objects, id: string, k: string)
    requires id in objs && Reachable(Unlinked(objs, id), id, k)
    ensures Reachable(objs, id, k)
  {
    var u := Unlinked(objs, id);
    var p :| IsChildPath(u, p) && p[0] == id && p[|p| - 1] == k;
    assert IsChildPath(objs, p);
  }

  lemma PathFromUnlinked(objs: Objects, id: string, k: string)
    requires id in objs && Acyclic(objs) && Reachable(objs, id, k)
    ensures Reachable(Unlinked(objs, id), id, k)
  {
    var u := Unlinked(objs, id);
    var rank :| Ranked(objs, rank);
    var p :| IsChildPath(objs, p) && p[0] == id && p[|p| - 1] == k;
    forall i | 0 <= i < |p| - 1 ensures p[i + 1] in u[p[i]].children {
      UnlinkedKeepsPathEdge(objs, rank, id, p, i);
    }
    assert IsChildPath(u, p);
  }

  /** Unlinking only shortens a child list, so a ranking of the map ranks the result. */
  lemma UnlinkedRanked(objs: Objects, id: string, rank: map<string, nat>)
    requires id in objs && Ranked(objs, rank)
    ensures Ranked(Unlinked(objs, id), rank)
  {
    var u := Unlinked(objs, id);
    forall a, c | a in u && c in u && c in u[a].children ensures rank[a] < rank[c] {
      assert c in objs[a].children;
    }
  }

  /**
   * `r` is what `removeObject(id)` leaves: the unlinked map without `id` and
   * everything below it.
   */
  ghost predicate RemovedFrom(objs: Objects, id: string, r: Objects)
    requires id in objs
  {
    && (forall k {:trigger k in r} :: k in r <==> k in objs && !Reachable(objs, id, k))
    && (forall k {:trigger r[k]} :: k in r ==> r[k] == Unlinked(objs, id)[k])
  }

  lemma RemoveKeepsListing(objs: Objects, root: string, id: string, r: Objects)
    requires TreeConsistent(objs, root) && id in objs && id != root
    requires RemovedFrom(objs, id, r)
    ensures RootIsParentless(r, root) && StoredUnderOwnId(r) && NonRootsListed(r, root)
  {
    if Reachable(objs, id, root) {
      RootReachedOnlyFromItself(objs, root, id);
    }
    forall k | k in r && k != root ensures ListedByParent(r, k) {
      assert ListedByParent(objs, k);
      var p := objs[k].parentId.value;
      if Reachable(objs, id, p) {
        PathExtend(objs, id, p, k);
      }
      assert k != id by {
        PathSingleton(objs, id);
      }
    }
  }

  lemma RemoveKeepsChildLinks(objs: Objects, id: string, r: Objects)
    requires ChildrenPointBack(objs) && id in objs && Present(objs[id].parentId)
    requires RemovedFrom(objs, id, r)
    ensures ChildrenPointBack(r)
  {
    forall a, c | a in r && c in r[a].children
      ensures c in r && r[c].parentId == Some(a)
    {
      RemoveKeepsListedChild(objs, id, r, a, c);
    }
  }

  lemma RemoveKeepsListedChild(objs: Objects, id: string, r: Objects, a: string, c: string)
    requires ChildrenPointBack(objs) && id in objs && Present(objs[id].parentId)
    requires RemovedFrom(objs, id, r)
    requires a in r && c in r[a].children
    ensures c in r && r[c].parentId == Some(a)
  {
    assert a in objs && !Reachable(objs, id, a);
    assert r[a] == Unlinked(objs, id)[a];
    RemoveKeepsEdge(objs, id, a, c);
    assert c in objs[a].children;
    assert c in objs && objs[c].parentId == Some(a);
    assert c in r;
    assert r[c] == objs[c].(children := r[c].children);
  }

  lemma RemoveKeepsEdge(objs: Objects, id: string, a: string, c: string)
    requires ChildrenPointBack(objs) && id in objs && Present(objs[id].parentId)
    requires a in objs && !Reachable(objs, id, a)
    requires c in Unlinked(objs, id)[a].children
    ensures c in objs[a].children && c != id
    ensures !Reachable(objs, id, c)
  {
    UnlinkedChild(objs, id, a, c);
    ChildOutsideSubtree(objs, id, a, c);
  }

  lemma UnlinkedChild(objs: Objects, id: string, a: string, c: string)
    requires ChildrenPointBack(objs) && id in objs && Present(objs[id].parentId)
    requires a in objs && c in Unlinked(objs, id)[a].children
    ensures c in objs[a].children && c != id
  {
    var u := Unlinked(objs, id);
    var kids := objs[a].children;
    assert u[a].children == (if a == objs[id].parentId.value then Without(kids, id) else kids);
    assert c in kids;
    assert c in objs && objs[c].parentId == Some(a);
  }

  /** A child of an object outside the subtree of `id` is outside it too, unless it is `id`. */
  lemma ChildOutsideSubtree(objs: Objects, id: string, a: string, c: string)
    requires ChildrenPointBack(objs)
    requires a in objs && !Reachable(objs, id, a)
    requires c in objs[a].children && c != id
    ensures !Reachable(objs, id, c)
  {
    if Reachable(objs, id, c) {
      var q := PathLastStep(objs, id, c);
    }
  }

  lemma RemoveKeepsDistinct(objs: Objects, root: string, id: string, r: Objects)
    requires TreeConsistent(objs, root) && id in objs
    requires RemovedFrom(objs, id, r)
    ensures ChildListsDistinct(r)
  {
    forall a | a in r ensures NoDup(r[a].children) {
      assert r[a] == Unlinked(objs, id)[a];
      assert NoDup(objs[a].children);
    }
  }

  lemma RemoveKeepsRanked(objs: Objects, root: string, id: string, r: Objects)
    requires TreeConsistent(objs, root) && id in objs
    requires RemovedFrom(objs, id, r)
    ensures Acyclic(r)
  {
    var rank :| Ranked(objs, rank);
    forall a, c | a in r && c in r && c in r[a].children ensures rank[a] < rank[c] {
      assert c in objs[a].children;
    }
    assert Ranked(r, rank);
  }

  /**
   * Removing a non-root object from a consistent tree — unlinking it and
   * deleting everything below it — leaves a consistent tree.
   */
  lemma RemovePreservesTree(objs: Objects, root: string, id: string, r: Objects)
    requires TreeConsistent(objs, root) && id in objs && id != root
    requires forall k :: k in r <==> k in objs && !Reachable(objs, id, k)
    requires forall k :: k in r ==> r[k] == Unlinked(objs, id)[k]
    ensures TreeConsistent(r, root)
  {
    RemoveKeepsListing(objs, root, id, r);
    assert ListedByParent(objs, id);
    RemoveKeepsChildLinks(objs, id, r);
    RemoveKeepsDistinct(objs, root, id, r);
    RemoveKeepsRanked(objs, root, id, r);
  }

  /**
   * What deleting the subtree of `id` from the unlinked map leaves is exactly
   * what `removeObject(id)` promises, and it keeps a consistent tree consistent.
   */
  lemma DeleteAfterUnlink(before: Objects, root: string, id: string, after: Objects)
    requires id in before && Acyclic(before)
    requires forall k :: k in after <==> k in Unlinked(before, id) && !Reachable(Unlinked(before, id), id, k)
    requires forall k :: k in after ==> after[k] == Unlinked(before, id)[k]
    ensures RemovedFrom(before, id, after)
    ensures TreeConsistent(before, root) && id != root ==> TreeConsistent(after, root)
  {
    forall k ensures Reachable(Unlinked(before, id), id, k) <==> Reachable(before, id, k) {
      UnlinkedSubtree(before, id, k);
    }
    if TreeConsistent(before, root) && id != root {
      RemovePreservesTree(before, root, id, after);
    }
  }

  // ---------------------------------------------------------------------------
  // reparentObject
  // ---------------------------------------------------------------------------

  /** The checks `reparentObject` makes before its cycle walk, once the object is known to exist. */
  predicate ReparentGuardsPass(objs: Objects, id: string, newParentId: Option<string>)
    requires id in objs
  {
    && Present(newParentId) && newParentId.value in objs
    && Present(objs[id].parentId) && objs[id].parentId.value in objs
    && id != newParentId.value
  }

  /** The child list of `k` after moving `id` from its old parent to `np`. */
  function ReparentedChildren(objs: Objects, id: string, np: string, index: Option<int>, k: string): seq<string>
    requires id in objs && k in objs && Present(objs[id].parentId)
  {
    var op := objs[id].parentId.value;
    var kept := if k == op then Without(objs[k].children, id) else objs[k].children;
    if k == np then InsertAt(kept, id, index) else kept
  }

  /** The object map after a reparent that passed its checks. */
  function Reparented(objs: Objects, id: string, np: string, index: Option<int>): (r: Objects)
    requires id in objs && np in objs
    requires Present(objs[id].parentId) && objs[id].parentId.value in objs
    ensures forall k :: k in r <==> k in objs
    ensures forall k {:trigger r[k]} :: k in r ==> r[k] == objs[k].(
      children := ReparentedChildren(objs, id, np, index, k),
      parentId := if k == id then Some(np) else objs[k].parentId)
  {
    map k | k in objs :: objs[k].(
      children := ReparentedChildren(objs, id, np, index, k),
      parentId := if k == id then Some(np) else objs[k].parentId)
  }

  /**
   * A successful reparent lists `id` under the new parent (at `index` when it is
   * within bounds, last otherwise), no longer under a different old parent, and
   * points `id` at the new parent; no object is added or lost.
   */
  lemma ReparentedShape(objs: Objects, id: string, np: string, index: Option<int>)
    requires id in objs && ReparentGuardsPass(objs, id, Some(np))
    ensures var r := Reparented(objs, id, np, index);
      var op := objs[id].parentId.value;
      var before := if op == np then Without(objs[np].children, id) else objs[np].children;
      && (forall k :: k in r <==> k in objs)
      && r[id].parentId == Some(np)
      && r[np].children == InsertAt(before, id, index)
      && (op != np ==> r[op].children == Without(objs[op].children, id) && id !in r[op].children)
      && (forall k :: k in objs && k != id && k != np && k != op ==> r[k] == objs[k])
  {
  }

  /** The edges of the reparented graph are old edges, or the new edge into `id`. */
  lemma ReparentedEdge(objs: Objects, id: string, np: string, index: Option<int>, a: string, c: string)
    requires id in objs && ReparentGuardsPass(objs, id, Some(np))
    requires a in objs && c in Reparented(objs, id, np, index)[a].children
    requires id in objs[a].children ==> objs[id].parentId == Some(a)
    ensures c == id ==> a == np
    ensures c != id ==> c in objs[a].children
  {
    var op := objs[id].parentId.value;
    var kept := if a == op then Without(objs[a].children, id) else objs[a].children;
    assert Reparented(objs, id, np, index)[a].children == (if a == np then InsertAt(kept, id, index) else kept);
    assert id !in kept;
    assert forall y :: y in kept ==> y in objs[a].children;
  }

  /** The depth ranking after moving the subtree of `id` below `np`. */
  ghost function ShiftedRank(objs: Objects, rank: map<string, nat>, id: string, np: string): map<string, nat>
    requires np in rank
  {
    map k | k in rank :: if Reachable(objs, id, k) then rank[k] + rank[np] + 1 else rank[k]
  }

  lemma ReparentKeepsListing(objs: Objects, root: string, id: string, np: string, index: Option<int>)
    requires TreeConsistent(objs, root)
    requires id in objs && ReparentGuardsPass(objs, id, Some(np))
    ensures var r := Reparented(objs, id, np, index);
      RootIsParentless(r, root) && StoredUnderOwnId(r) && NonRootsListed(r, root)
  {
    var r := Reparented(objs, id, np, index);
    ReparentedShape(objs, id, np, index);
    assert id != root;
    forall k | k in r && k != root ensures ListedByParent(r, k) {
      if k != id {
        assert ListedByParent(objs, k);
        var p := objs[k].parentId.value;
        assert k in objs[p].children;
      }
    }
  }

  /**
   * What the links of the map `r` after moving `id` under `np` are: the same
   * keys, `id` pointing at `np`, and every listed child an old child or `id`
   * under `np`.
   */
  ghost predicate ReparentedLinks(objs: Objects, id: string, np: string, r: Objects) {
    && (forall k {:trigger k in r} :: k in r <==> k in objs)
    && (forall k {:trigger r[k]} :: k in r ==> r[k].parentId == (if k == id then Some(np) else objs[k].parentId))
    && (forall k, c :: k in r && c in r[k].children ==> (c == id && k == np) || (c != id && c in objs[k].children))
  }

  lemma ReparentedHasLinks(objs: Objects, id: string, np: string, index: Option<int>)
    requires ChildrenPointBack(objs)
    requires id in objs && ReparentGuardsPass(objs, id, Some(np))
    ensures ReparentedLinks(objs, id, np, Reparented(objs, id, np, index))
  {
    var r := Reparented(objs, id, np, index);
    forall k, c | k in r && c in r[k].children ensures (c == id && k == np) || (c != id && c in objs[k].children) {
      ReparentedEdge(objs, id, np, index, k, c);
    }
  }

  lemma ReparentKeepsChildLinks(objs: Objects, id: string, np: string, r: Objects)
    requires ChildrenPointBack(objs) && id in objs
    requires ReparentedLinks(objs, id, np, r)
    ensures ChildrenPointBack(r)
  {
    forall a, c | a in r && c in r[a].children
      ensures c in r && r[c].parentId == Some(a)
    {
      if c != id {
        assert c in objs[a].children;
        assert c in objs && objs[c].parentId == Some(a);
      }
    }
  }

  lemma ReparentKeepsDistinct(objs: Objects, root: string, id: string, np: string, index: Option<int>)
    requires TreeConsistent(objs, root)
    requires id in objs && ReparentGuardsPass(objs, id, Some(np))
    ensures ChildListsDistinct(Reparented(objs, id, np, index))
  {
    var r := Reparented(objs, id, np, index);
    var op := objs[id].parentId.value;
    forall a | a in r ensures NoDup(r[a].children) {
      assert NoDup(objs[a].children);
      if a == np {
        var before := if op == np then Without(objs[np].children, id) else objs[np].children;
        assert id !in before;
        InsertAbsentKeepsNoDup(before, id, index);
      }
    }
  }

  /** Every edge of the reparented graph descends in the shifted ranking. */
  lemma ShiftedRankEdge(objs: Objects, root: string, rank: map<string, nat>, id: string, np: string, index: Option<int>, a: string, c: string)
    requires TreeConsistent(objs, root) && Ranked(objs, rank)
    requires id in objs && ReparentGuardsPass(objs, id, Some(np))
    requires !Reachable(objs, id, np)
    requires a in objs && c in objs && c in Reparented(objs, id, np, index)[a].children
    ensures ShiftedRank(objs, rank, id, np)[a] < ShiftedRank(objs, rank, id, np)[c]
  {
    ReparentedEdge(objs, id, np, index, a, c);
    PathSingleton(objs, id);
    if c != id {
      if Reachable(objs, id, a) {
        PathExtend(objs, id, a, c);
      } else if Reachable(objs, id, c) {
        var q := PathLastStep(objs, id, c);
      }
    }
  }

  lemma ReparentKeepsRanked(objs: Objects, root: string, id: string, np: string, index: Option<int>)
    requires TreeConsistent(objs, root)
    requires id in objs && ReparentGuardsPass(objs, id, Some(np))
    requires !Reachable(objs, id, np)
    ensures Acyclic(Reparented(objs, id, np, index))
  {
    var r := Reparented(objs, id, np, index);
    var rank :| Ranked(objs, rank);
    var rank' := ShiftedRank(objs, rank, id, np);
    forall a, c | a in r && c in r && c in r[a].children ensures rank'[a] < rank'[c] {
      ShiftedRankEdge(objs, root, rank, id, np, index, a, c);
    }
    assert Ranked(r, rank');
  }

  /**
   * Moving `id` under a new parent that is not in its own subtree keeps the tree
   * consistent — in particular it creates no cycle.
   */
  lemma ReparentPreservesTree(objs: Objects, root: string, id: string, np: string, index: Option<int>)
    requires TreeConsistent(objs, root)
    requires id in objs && ReparentGuardsPass(objs, id, Some(np))
    requires !Reachable(objs, id, np)
    ensures TreeConsistent(Reparented(objs, id, np, index), root)
  {
    ReparentKeepsListing(objs, root, id, np, index);
    ReparentedHasLinks(objs, id, np, index);
    ReparentKeepsChildLinks(objs, id, np, Reparented(objs, id, np, index));
    ReparentKeepsDistinct(objs, root, id, np, index);
    ReparentKeepsRanked(objs, root, id, np, index);
  }

  /** A lone root object, as the older store's default scene holds. */
  const RootOnly := SceneObject("root", "Root", Group, None, [], true, true, IdentityTransform, None)

  // ---------------------------------------------------------------------------
  // reparentObject's opening lookups (both stores)
  // ---------------------------------------------------------------------------

  /**
   * The lookups at the head of `reparentObject` as the source orders them:
   * `obj.parentId` is read before `obj` is checked, so a missing object throws
   * a TypeError instead of returning. `Ok(b)` says whether the guards pass.
   */
  function ReparentLookupAsWritten(objs: Objects, id: string, newParentId: Option<string>): Result<bool, string> {
    if id !in objs then Err("TypeError: cannot read properties of undefined (reading 'parentId')")
    else Ok(ReparentGuardsPass(objs, id, newParentId))
  }

  /** The same lookups with the existence check first: a missing object is a silent no-op. */
  function ReparentLookup(objs: Objects, id: string, newParentId: Option<string>): bool {
    id in objs && ReparentGuardsPass(objs, id, newParentId)
  }

  /** The two orders agree whenever the object exists. */
  lemma ReparentLookupAgrees(objs: Objects, id: string, newParentId: Option<string>)
    requires id in objs
    ensures ReparentLookupAsWritten(objs, id, newParentId) == Ok(ReparentLookup(objs, id, newParentId))
  {
  }

  /** Reparenting an id the scene does not hold throws as written, where a no-op was intended. */
  lemma ReparentOfMissingObjectThrows()
    ensures ReparentLookupAsWritten(map["root" := RootOnly], "missing", Some("root")).Err?
    ensures !ReparentLookup(map["root" := RootOnly], "missing", Some("root"))
  {
  }

  // ---------------------------------------------------------------------------
  // restoreObject
  // ---------------------------------------------------------------------------

  /** The object map after `restoreObject(o)`. */
  function Restored(objs: Objects, o: SceneObject): Objects {
    var m := objs[o.id := o];
    if Present(o.parentId) && o.parentId.value in m && o.id !in m[o.parentId.value].children then
      m[o.parentId.value := m[o.parentId.value].(children := m[o.parentId.value].children + [o.id])]
    else m
  }

  /**
   * Restoring stores the object, lists it under an existing parent, and never
   * lists a child twice: repeated children can only come from the object's own list.
   */
  lemma RestoredShape(objs: Objects, o: SceneObject)
    ensures var r := Restored(objs, o);
      && r.Keys == objs.Keys + {o.id}
      && (Present(o.parentId) && o.parentId.value != o.id ==> r[o.id] == o)
      && (Present(o.parentId) && o.parentId.value in r ==> o.id in r[o.parentId.value].children)
      && (forall k :: k in objs && k != o.id && (!Present(o.parentId) || k != o.parentId.value) ==> r[k] == objs[k])
    ensures (forall k :: k in objs ==> NoDup(objs[k].children)) && NoDup(o.children) ==>
      forall k :: k in Restored(objs, o) ==> NoDup(Restored(objs, o)[k].children)
  {
    var r := Restored(objs, o);
    var m := objs[o.id := o];
    if (forall k :: k in objs ==> NoDup(objs[k].children)) && NoDup(o.children) {
      forall k | k in r ensures NoDup(r[k].children) {
        if Present(o.parentId) && k == o.parentId.value && o.id !in m[k].children {
          InsertAbsentKeepsNoDup(m[k].children, o.id, None);
        }
      }
    }
  }

  // ---------------------------------------------------------------------------
  // updateTransform, updateComponent, updateMeshMaterialSpec, updateObject
  // ---------------------------------------------------------------------------

  /** The object whose scale the newer store treats as read-only. */
  predicate IsMainCamera(o: SceneObject) {
    o.kind == Camera && o.name == "Main Camera"
  }

  /**
   * `obj.transform = {...obj.transform, ...patch}`; with `lockCamera` (the newer
   * store) a scale in the patch is dropped for the main camera.
   */
  function TransformUpdated(o: SceneObject, patch: TransformPatch, lockCamera: bool): (r: SceneObject)
    ensures r == o.(transform := r.transform)
    ensures r.transform.position == Pick(patch.position, o.transform.position)
    ensures r.transform.rotation == Pick(patch.rotation, o.transform.rotation)
    ensures lockCamera && IsMainCamera(o) ==> r.transform.scale == o.transform.scale
    ensures !(lockCamera && IsMainCamera(o)) ==> r.transform.scale == Pick(patch.scale, o.transform.scale)
  {
    if lockCamera && IsMainCamera(o) && patch.scale.Some? then
      o.(transform := MergeTransform(o.transform, patch.(scale := None)))
    else
      o.(transform := MergeTransform(o.transform, patch))
  }

  /**
   * `components[key] = {...components[key], ...data}`, creating `components`
   * first when missing.
   */
  function ComponentUpdated(o: SceneObject, key: string, data: Record): (r: SceneObject)
    ensures r == o.(components := r.components)
    ensures r.components.Some? && key in r.components.value
    ensures Entries(r.components.value[key]) == (
      if o.components.Some? && key in o.components.value then Entries(o.components.value[key]) else map[]) + data
    ensures forall k :: k != key ==> (
      (k in r.components.value <==> o.components.Some? && k in o.components.value)
      && (k in r.components.value ==> r.components.value[k] == o.components.value[k]))
  {
    var comps := OrEmpty(o.components);
    var prev := if key in comps then Entries(comps[key]) else map[];
    o.(components := Some(comps[key := Obj(prev + data)]))
  }

  /**
   * `mesh.material = material` when the mesh component is an object; the
   * object is returned unchanged when it has none.
   */
  function MaterialUpdated(o: SceneObject, material: Value): (r: SceneObject)
    ensures r == o.(components := r.components)
    ensures MeshOf(o).Obj? ==> Get(MeshOf(r), "material") == material
    ensures MeshOf(o).Obj? ==>
      MeshOf(r).Obj? && MeshOf(r).fields == MeshOf(o).fields["material" := material]
    ensures !MeshOf(o).Obj? ==> r == o
  {
    var mesh := MeshOf(o);
    if mesh.Obj? then
      o.(components := Some(o.components.value["mesh" := Obj(mesh.fields["material" := material])]))
    else o
  }

  /** Two maps hold the same objects up to fields the tree shape does not depend on. */
  ghost predicate SameShape(objs: Objects, r: Objects) {
    && (forall k :: k in r <==> k in objs)
    && (forall k :: k in r ==>
         r[k].id == objs[k].id && r[k].parentId == objs[k].parentId && r[k].children == objs[k].children)
  }

  /** Edits of names, flags, transforms and components keep a consistent tree consistent. */
  lemma SameShapePreservesTree(objs: Objects, root: string, r: Objects)
    requires TreeConsistent(objs, root) && SameShape(objs, r)
    ensures TreeConsistent(r, root)
  {
    var rank :| Ranked(objs, rank);
    assert Ranked(r, rank);
    assert RootIsParentless(r, root);
    assert StoredUnderOwnId(r);
    assert NonRootsListed(r, root) by {
      forall k | k in r && k != root ensures ListedByParent(r, k) {
        assert ListedByParent(objs, k);
      }
    }
    assert ChildrenPointBack(r) by {
      forall a, c | a in r && c in r[a].children ensures c in r && r[c].parentId == Some(a) {
        assert c in objs[a].children;
      }
    }
    assert ChildListsDistinct(r);
  }

  /** A partial update that leaves `id`, `parentId` and `children` alone. */
  predicate ShapeNeutral(patch: ObjectPatch) {
    patch.id.None? && patch.parentId.None? && patch.children.None?
  }
}
