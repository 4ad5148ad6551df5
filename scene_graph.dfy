/**
 * The object graph of a scene: paths along `children` links, acyclicity by a
 * depth ranking, tree consistency, and the two graph walks the scene stores
 * perform in place — the recursive subtree deletion of `removeObject` and the
 * ancestor walk that `reparentObject` uses to refuse cycles.
 */
module SceneGraph {
  import opened Wrappers
  import opened Seqs
  import opened SceneModel

  type Objects = map<string, SceneObject>

  /** `p` follows `children` links through objects of `objs`. */
  ghost predicate IsChildPath(objs: Objects, p: seq<string>) {
    |p| >= 1
    && (forall i :: 0 <= i < |p| ==> p[i] in objs)
    && (forall i, j :: 0 <= i && j == i + 1 && j < |p| ==> p[j] in objs[p[i]].children)
  }

  /** `y` is `x` or one of its descendants. */
  ghost predicate Reachable(objs: Objects, x: string, y: string) {
    exists p :: IsChildPath(objs, p) && p[0] == x && p[|p| - 1] == y
  }

  /** A depth ranking: every object listed as a child ranks strictly below its parent's depth. */
  ghost predicate Ranked(objs: Objects, rank: map<string, nat>) {
    (forall k :: k in objs ==> k in rank)
    && (forall a, c :: a in objs && c in objs && c in objs[a].children ==> rank[a] < rank[c])
  }

  /** No object is its own descendant. */
  ghost predicate Acyclic(objs: Objects) {
    exists rank :: Ranked(objs, rank)
  }

  /** The root is stored and has no parent. */
  ghost predicate RootIsParentless(objs: Objects, root: string) {
    root in objs && objs[root].parentId == None
  }

  /** Every object is stored under its own id. */
  ghost predicate StoredUnderOwnId(objs: Objects) {
    forall k :: k in objs ==> objs[k].id == k
  }

  /** `k` names a stored parent, and that parent lists `k` among its children. */
  ghost predicate ListedByParent(objs: Objects, k: string)
    requires k in objs
  {
    Present(objs[k].parentId) && objs[k].parentId.value in objs
    && k in objs[objs[k].parentId.value].children
  }

  /** Every object but the root is listed by the parent it names. */
  ghost predicate NonRootsListed(objs: Objects, root: string) {
    forall k {:trigger ListedByParent(objs, k)} :: k in objs && k != root ==> ListedByParent(objs, k)
  }

  /** Every listed child is stored and names the listing object as its parent. */
  ghost predicate ChildrenPointBack(objs: Objects) {
    forall a, c :: a in objs && c in objs[a].children ==> c in objs && objs[c].parentId == Some(a)
  }

  /** No child list repeats an id. */
  ghost predicate ChildListsDistinct(objs: Objects) {
    forall a :: a in objs ==> NoDup(objs[a].children)
  }

  /**
   * The tree shape the editor maintains: a parentless root, every object stored
   * under its own id, every other object listed in the children of the parent it
   * names, every listed child naming that parent back, no repeated children and
   * no cycles.
   */
  ghost predicate TreeConsistent(objs: Objects, root: string) {
    && RootIsParentless(objs, root)
    && StoredUnderOwnId(objs)
    && NonRootsListed(objs, root)
    && ChildrenPointBack(objs)
    && ChildListsDistinct(objs)
    && Acyclic(objs)
  }

  // ---------------------------------------------------------------------------
  // Paths
  // ---------------------------------------------------------------------------

  lemma PathSingleton(objs: Objects, x: string)
    requires x in objs
    ensures Reachable(objs, x, x)
  {
    assert IsChildPath(objs, [x]);
  }

  lemma PathExtend(objs: Objects, x: string, y: string, z: string)
    requires Reachable(objs, x, y)
    requires z in objs && z in objs[y].children
    ensures Reachable(objs, x, z)
  {
    var p :| IsChildPath(objs, p) && p[0] == x && p[|p| - 1] == y;
    assert IsChildPath(objs, p + [z]);
    assert (p + [z])[0] == x;
  }

  lemma PathPrepend(objs: Objects, w: string, x: string, y: string)
    requires w in objs && x in objs[w].children
    requires Reachable(objs, x, y)
    ensures Reachable(objs, w, y)
  {
    var p :| IsChildPath(objs, p) && p[0] == x && p[|p| - 1] == y;
    assert IsChildPath(objs, [w] + p);
    assert ([w] + p)[|[w] + p| - 1] == y;
  }

  lemma PathConcat(objs: Objects, x: string, y: string, z: string)
    requires Reachable(objs, x, y) && Reachable(objs, y, z)
    ensures Reachable(objs, x, z)
  {
    var p :| IsChildPath(objs, p) && p[0] == x && p[|p| - 1] == y;
    var q :| IsChildPath(objs, q) && q[0] == y && q[|q| - 1] == z;
    var pq := p + q[1..];
    assert IsChildPath(objs, pq) by {
      forall i | 0 <= i < |pq| - 1
        ensures pq[i + 1] in objs[pq[i]].children
      {
        if i < |p| - 1 {
        } else {
          assert pq[i] == q[i - |p| + 1];
        }
      }
    }
    assert pq[|pq| - 1] == z by {
      if |q| == 1 {
      } else {
        assert pq[|pq| - 1] == q[|q| - 1];
      }
    }
  }

  /** A path leaving `x` goes through one of `x`'s children. */
  lemma PathFirstStep(objs: Objects, x: string, y: string) returns (c: string)
    requires Reachable(objs, x, y) && x != y
    ensures x in objs && c in objs[x].children && Reachable(objs, c, y)
  {
    var p :| IsChildPath(objs, p) && p[0] == x && p[|p| - 1] == y;
    c := p[1];
    assert IsChildPath(objs, p[1..]);
    assert p[1..][|p[1..]| - 1] == y;
  }

  /** A path reaching `y` from elsewhere arrives from an object listing `y` as a child. */
  lemma PathLastStep(objs: Objects, x: string, y: string) returns (q: string)
    requires Reachable(objs, x, y) && x != y
    ensures q in objs && y in objs[q].children && Reachable(objs, x, q)
  {
    var p :| IsChildPath(objs, p) && p[0] == x && p[|p| - 1] == y;
    q := p[|p| - 2];
    var pre := p[..|p| - 1];
    assert IsChildPath(objs, pre);
    assert pre[0] == x && pre[|pre| - 1] == q;
  }

  lemma {:induction false} PathRankMonotone(objs: Objects, rank: map<string, nat>, p: seq<string>)
    requires Ranked(objs, rank) && IsChildPath(objs, p)
    ensures |p| > 1 ==> rank[p[0]] < rank[p[|p| - 1]]
    decreases |p|
  {
    if |p| > 2 {
      var pre := p[..|p| - 1];
      assert IsChildPath(objs, pre);
      PathRankMonotone(objs, rank, pre);
    }
  }

  /** In an acyclic graph nothing reaches back to an object above it. */
  lemma ReachableRank(objs: Objects, rank: map<string, nat>, x: string, y: string)
    requires Ranked(objs, rank) && Reachable(objs, x, y)
    ensures x in objs && y in objs
    ensures x != y ==> rank[x] < rank[y]
    ensures x == y || rank[x] < rank[y]
  {
    var p :| IsChildPath(objs, p) && p[0] == x && p[|p| - 1] == y;
    PathRankMonotone(objs, rank, p);
  }

  /** Within a sub-map holding the same objects, a path is a path of the larger map. */
  lemma PathInSubmap(small: Objects, big: Objects, x: string, y: string)
    requires forall k :: k in small ==> k in big && small[k] == big[k]
    requires Reachable(small, x, y)
    ensures Reachable(big, x, y)
  {
    var p :| IsChildPath(small, p) && p[0] == x && p[|p| - 1] == y;
    assert IsChildPath(big, p);
  }

  /** A path of the larger map whose every stop is kept is a path of the sub-map. */
  lemma PathRestrict(small: Objects, big: Objects, p: seq<string>)
    requires forall k :: k in small ==> k in big && small[k] == big[k]
    requires IsChildPath(big, p)
    requires forall i :: 0 <= i < |p| ==> p[i] in small
    ensures IsChildPath(small, p)
  {
  }

  // ---------------------------------------------------------------------------
  // removeObject's deleteRecursive
  // ---------------------------------------------------------------------------

  /** Some earlier child of the loop in `DeleteSubtree` reaches `k`. */
  ghost predicate ReachedFromAny(objs: Objects, kids: seq<string>, k: string) {
    exists j :: 0 <= j < |kids| && Reachable(objs, kids[j], k)
  }

  /** Adding one more child to the loop's prefix adds that child's subtree. */
  lemma ReachedFromAnyStep(objs: Objects, kids: seq<string>, i: nat, k: string)
    requires i < |kids|
    ensures ReachedFromAny(objs, kids[..i + 1], k)
      <==> ReachedFromAny(objs, kids[..i], k) || Reachable(objs, kids[i], k)
  {
    assert kids[..i + 1][i] == kids[i];
    if ReachedFromAny(objs, kids[..i], k) {
      var j :| 0 <= j < i && Reachable(objs, kids[..i][j], k);
      assert kids[..i + 1][j] == kids[..i][j];
    }
    if ReachedFromAny(objs, kids[..i + 1], k) {
      var j :| 0 <= j < i + 1 && Reachable(objs, kids[..i + 1][j], k);
      if j < i {
        assert kids[..i][j] == kids[..i + 1][j];
      }
    }
  }

  /** Everything after a deleted stop on a path lies in a deleted subtree as well. */
  lemma DeletedPropagates(cur: Objects, prev: seq<string>, p: seq<string>, n: nat)
    requires IsChildPath(cur, p) && n < |p|
    ensures ReachedFromAny(cur, prev, p[n]) ==> ReachedFromAny(cur, prev, p[|p| - 1])
  {
    if ReachedFromAny(cur, prev, p[n]) {
      var j :| 0 <= j < |prev| && Reachable(cur, prev[j], p[n]);
      var tail := p[n..];
      assert IsChildPath(cur, tail);
      assert tail[0] == p[n] && tail[|tail| - 1] == p[|p| - 1];
      PathConcat(cur, prev[j], p[n], p[|p| - 1]);
    }
  }

  /**
   * Once the subtrees of some children are gone, the subtree below another
   * child is the same in what is left as in the original map.
   */
  lemma SubtreeSurvives(cur: Objects, m: Objects, prev: seq<string>, c: string, k: string)
    requires forall k :: k in m ==> k in cur && m[k] == cur[k]
    requires forall k :: k in cur ==> (k !in m <==> ReachedFromAny(cur, prev, k))
    requires k in m
    ensures Reachable(m, c, k) <==> Reachable(cur, c, k)
  {
    if Reachable(m, c, k) {
      PathInSubmap(m, cur, c, k);
    }
    if Reachable(cur, c, k) {
      var p :| IsChildPath(cur, p) && p[0] == c && p[|p| - 1] == k;
      forall n | 0 <= n < |p| ensures p[n] in m {
        DeletedPropagates(cur, prev, p, n);
      }
      PathRestrict(m, cur, p);
    }
  }

  lemma SubtreeSurvivesAll(cur: Objects, m: Objects, prev: seq<string>, c: string)
    requires forall k :: k in m ==> k in cur && m[k] == cur[k]
    requires forall k :: k in cur ==> (k !in m <==> ReachedFromAny(cur, prev, k))
    ensures forall k :: k in m ==> (Reachable(m, c, k) <==> Reachable(cur, c, k))
  {
    forall k | k in m ensures Reachable(m, c, k) <==> Reachable(cur, c, k) {
      SubtreeSurvives(cur, m, prev, c, k);
    }
  }

  /** The subtree of `t` is `t` together with the subtrees of its children. */
  lemma SubtreeOfChildren(cur: Objects, t: string, k: string)
    requires t in cur && k in cur
    ensures Reachable(cur, t, k) <==> k == t || ReachedFromAny(cur, cur[t].children, k)
  {
    var kids := cur[t].children;
    if k == t {
      PathSingleton(cur, t);
    } else if Reachable(cur, t, k) {
      var c := PathFirstStep(cur, t, k);
      var j :| 0 <= j < |kids| && kids[j] == c;
      assert ReachedFromAny(cur, kids, k);
    } else if ReachedFromAny(cur, kids, k) {
      var j :| 0 <= j < |kids| && Reachable(cur, kids[j], k);
      PathPrepend(cur, t, kids[j], k);
    }
  }

  /**
   * `deleteRecursive(t)`: visit `t`'s children in order, deleting each subtree,
   * then delete `t` itself. The result is the map without `t` and everything
   * below it; every other entry is untouched.
   */
  method DeleteSubtree(cur: Objects, t: string, ghost rank: map<string, nat>, ghost bound: nat)
    returns (r: Objects)
    requires Ranked(cur, rank)
    requires forall k :: k in rank ==> rank[k] <= bound
    ensures forall k :: k in r <==> k in cur && !Reachable(cur, t, k)
    ensures forall k :: k in r ==> r[k] == cur[k]
    decreases if t in cur then bound - rank[t] + 1 else 0
  {
    if t !in cur {
      forall k | Reachable(cur, t, k) ensures false {
        ReachableRank(cur, rank, t, k);
      }
      return cur;
    }
    var kids := cur[t].children;
    var m := cur;
    var i := 0;
    while i < |kids|
      invariant 0 <= i <= |kids|
      invariant t in m && m[t] == cur[t]
      invariant forall k :: k in m ==> k in cur && m[k] == cur[k]
      invariant forall k :: k in cur ==> (k !in m <==> ReachedFromAny(cur, kids[..i], k))
    {
      var c := kids[i];
      assert Ranked(m, rank);
      var m' := DeleteSubtree(m, c, rank, bound);
      SubtreeSurvivesAll(cur, m, kids[..i], c);
      assert t in m' by {
        if Reachable(cur, c, t) {
          ReachableRank(cur, rank, c, t);
        }
      }
      forall k | k in cur
        ensures k !in m' <==> ReachedFromAny(cur, kids[..i + 1], k)
      {
        ReachedFromAnyStep(cur, kids, i, k);
      }
      m := m';
      i := i + 1;
    }
    assert kids[..i] == kids;
    r := m - {t};
    forall k | k in cur
      ensures k !in r <==> Reachable(cur, t, k)
    {
      SubtreeOfChildren(cur, t, k);
    }
  }

  /** Every finite ranking has an upper bound. */
  lemma {:induction false} RankBound(rank: map<string, nat>) returns (bound: nat)
    ensures forall k :: k in rank ==> rank[k] <= bound
    decreases |rank|
  {
    if rank == map[] {
      return 0;
    }
    var k :| k in rank;
    var rest := rank - {k};
    var b := RankBound(rest);
    bound := if rank[k] > b then rank[k] else b;
    assert forall k' :: k' in rank ==> k' == k || k' in rest;
  }

  // ---------------------------------------------------------------------------
  // reparentObject's ancestor walk
  // ---------------------------------------------------------------------------

  /** The root is nobody's descendant but its own. */
  lemma RootReachedOnlyFromItself(objs: Objects, root: string, x: string)
    requires TreeConsistent(objs, root)
    requires Reachable(objs, x, root)
    ensures x == root
  {
    if x != root {
      var q := PathLastStep(objs, x, root);
      assert false;
    }
  }

  /** One step up the parent chain keeps the question "is this below `id`?" unchanged. */
  lemma ParentStep(objs: Objects, root: string, rank: map<string, nat>, cur: string, id: string)
    requires TreeConsistent(objs, root) && Ranked(objs, rank)
    requires cur in objs && cur != id && Present(objs[cur].parentId)
    ensures objs[cur].parentId.value in objs
    ensures rank[objs[cur].parentId.value] < rank[cur]
    ensures Reachable(objs, id, cur) <==> Reachable(objs, id, objs[cur].parentId.value)
  {
    var p := objs[cur].parentId.value;
    assert cur != root;
    assert ListedByParent(objs, cur);
    assert p in objs && cur in objs[p].children;
    if Reachable(objs, id, cur) {
      var q := PathLastStep(objs, id, cur);
      assert objs[cur].parentId == Some(q);
    }
    if Reachable(objs, id, p) {
      PathExtend(objs, id, p, cur);
    }
  }

  /**
   * The `while (current.parentId)` walk from `start` up the parent chain,
   * reporting a hit when it meets an object whose id is `id`. On a consistent
   * tree it reports a hit exactly when `start` lies in the subtree of `id`.
   */
  method AncestorWalkHits(objs: Objects, root: string, start: string, id: string) returns (hit: bool)
    requires TreeConsistent(objs, root)
    requires start in objs && id != root
    ensures hit <==> Reachable(objs, id, start)
  {
    ghost var rank :| Ranked(objs, rank);
    var current := start;
    while Present(objs[current].parentId)
      invariant current in objs
      invariant Reachable(objs, id, start) <==> Reachable(objs, id, current)
      decreases rank[current]
    {
      if objs[current].id == id {
        PathSingleton(objs, id);
        return true;
      }
      ParentStep(objs, root, rank, current, id);
      current := objs[current].parentId.value;
    }
    assert current != root ==> ListedByParent(objs, current);
    if Reachable(objs, id, current) {
      RootReachedOnlyFromItself(objs, root, id);
    }
    return false;
  }
}
