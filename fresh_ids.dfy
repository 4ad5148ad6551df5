/**
 * Identifiers drawn from `uuidv4()`: a supply `uuid` whose `k`-th call
 * returns `uuid(k)`. Distinct calls give distinct ids.
 */
module FreshIds {

  ghost predicate Injective(uuid: nat -> string) {
    forall a, b :: uuid(a) == uuid(b) ==> a == b
  }

  /** The ids of calls `lo` up to, not including, `hi`. */
  ghost function Image(uuid: nat -> string, lo: nat, hi: nat): set<string> {
    set k | lo <= k < hi :: uuid(k)
  }

  /** Consecutive runs of calls give the ids of the combined run. */
  lemma ImageSplit(uuid: nat -> string, a: nat, b: nat, c: nat)
    requires a <= b <= c
    ensures Image(uuid, a, b) + Image(uuid, b, c) == Image(uuid, a, c)
  {
    forall x | x in Image(uuid, a, c) ensures x in Image(uuid, a, b) + Image(uuid, b, c) {
      var k :| a <= k < c && x == uuid(k);
      if k < b {
        assert x in Image(uuid, a, b);
      } else {
        assert x in Image(uuid, b, c);
      }
    }
  }

  /** Maps keyed by consecutive runs of calls join into a map keyed by the combined run. */
  lemma KeysSplit<V>(a: map<string, V>, b: map<string, V>, uuid: nat -> string, lo: nat, mid: nat, hi: nat)
    requires lo <= mid <= hi
    requires a.Keys == Image(uuid, lo, mid) && b.Keys == Image(uuid, mid, hi)
    ensures (a + b).Keys == Image(uuid, lo, hi)
  {
    ImageSplit(uuid, lo, mid, hi);
    assert (a + b).Keys == a.Keys + b.Keys;
  }

  /** Adding the id of call `lo` to a map keyed by the calls after it gives the run from `lo`. */
  lemma KeysCons<V>(a: map<string, V>, v: V, uuid: nat -> string, lo: nat, hi: nat)
    requires lo < hi && a.Keys == Image(uuid, lo + 1, hi)
    ensures a[uuid(lo) := v].Keys == Image(uuid, lo, hi)
  {
    ImageSplit(uuid, lo, lo + 1, hi);
    assert Image(uuid, lo, lo + 1) == {uuid(lo)};
  }

  /** Separate runs of calls give separate ids. */
  lemma ImageDisjoint(uuid: nat -> string, a: nat, b: nat, c: nat, d: nat)
    requires Injective(uuid) && b <= c
    ensures Image(uuid, a, b) !! Image(uuid, c, d)
  {
    forall x | x in Image(uuid, a, b) ensures x !in Image(uuid, c, d) {
      var k :| a <= k < b && x == uuid(k);
    }
  }

  /** `hi - lo` calls give `hi - lo` ids. */
  lemma {:induction false} ImageSize(uuid: nat -> string, lo: nat, hi: nat)
    requires Injective(uuid) && lo <= hi
    ensures |Image(uuid, lo, hi)| == hi - lo
    decreases hi - lo
  {
    if lo < hi {
      ImageSize(uuid, lo + 1, hi);
      ImageSplit(uuid, lo, lo + 1, hi);
      ImageDisjoint(uuid, lo, lo + 1, lo + 1, hi);
      assert Image(uuid, lo, lo + 1) == {uuid(lo)};
    } else {
      assert Image(uuid, lo, hi) == {};
    }
  }
}
