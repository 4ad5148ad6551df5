/**
 * The ordered selection shared by both editor stores: `select` with append
 * keeps `[...new Set([...selectedIds, ...ids])]`, `deselect` filters, and the
 * active id is always the last selected one.
 */
module Selection {
  import opened Wrappers
  import opened Seqs

  /**
   * Insert the elements of `s` into a JavaScript `Set` that already holds
   * `acc`, in order: an element already present keeps its first position.
   */
  function AddAll<T(==,!new)>(acc: seq<T>, s: seq<T>): (r: seq<T>)
    ensures |acc| <= |r| && r[..|acc|] == acc
    ensures forall x :: x in r <==> x in acc || x in s
    ensures NoDup(acc) ==> NoDup(r)
    decreases |s|
  {
    if s == [] then acc
    else if s[0] in acc then AddAll(acc, s[1..])
    else AddAll(acc + [s[0]], s[1..])
  }

  /** `[...new Set(s)]`: the first occurrence of every element, in order. */
  function Dedup<T(==,!new)>(s: seq<T>): (r: seq<T>)
    ensures forall x :: x in r <==> x in s
    ensures NoDup(r)
  {
    AddAll([], s)
  }

  /** An independent reading of `Dedup`: keep `s[i]` exactly when it does not occur in `s[..i]`. */
  function FirstOccurrences<T(==,!new)>(s: seq<T>): seq<T> {
    if s == [] then []
    else
      var init := s[..|s| - 1];
      FirstOccurrences(init) + (if s[|s| - 1] in init then [] else [s[|s| - 1]])
  }

  /** Inserting `a + b` is inserting `a` and then `b`. */
  lemma {:induction false} AddAllConcat<T(!new)>(acc: seq<T>, a: seq<T>, b: seq<T>)
    ensures AddAll(acc, a + b) == AddAll(AddAll(acc, a), b)
    decreases |a|
  {
    if a == [] {
      assert a + b == b;
    } else {
      assert (a + b)[0] == a[0] && (a + b)[1..] == a[1..] + b;
      if a[0] in acc {
        AddAllConcat(acc, a[1..], b);
      } else {
        AddAllConcat(acc + [a[0]], a[1..], b);
      }
    }
  }

  /** Elements that are all new and pairwise distinct are appended unchanged. */
  lemma {:induction false} AddAllDistinct<T(!new)>(acc: seq<T>, s: seq<T>)
    requires NoDup(acc + s)
    ensures AddAll(acc, s) == acc + s
    decreases |s|
  {
    if s != [] {
      assert s[0] == (acc + s)[|acc|];
      assert s[0] !in acc by {
        forall i | 0 <= i < |acc| ensures acc[i] != s[0] {
          assert acc[i] == (acc + s)[i];
        }
      }
      assert acc + [s[0]] + s[1..] == acc + s;
      AddAllDistinct(acc + [s[0]], s[1..]);
    }
  }

  /** A duplicate-free sequence is its own `Dedup`. */
  lemma DedupOfDistinct<T(!new)>(s: seq<T>)
    requires NoDup(s)
    ensures Dedup(s) == s
  {
    assert [] + s == s;
    AddAllDistinct([], s);
  }

  /** Appending to a duplicate-free selection: the old selection, then the new ids in order of first occurrence. */
  lemma SelectAppend<T(!new)>(old_: seq<T>, ids: seq<T>)
    requires NoDup(old_)
    ensures Dedup(old_ + ids) == AddAll(old_, ids)
    ensures Dedup(old_ + ids)[..|old_|] == old_
    ensures forall k :: |old_| <= k < |Dedup(old_ + ids)| ==> Dedup(old_ + ids)[k] in ids && Dedup(old_ + ids)[k] !in old_
  {
    AddAllConcat([], old_, ids);
    DedupOfDistinct(old_);
    AddedAreNew(old_, ids);
  }

  /** What `AddAll` puts after a duplicate-free `acc` comes from `s` and is not in `acc`. */
  lemma AddedAreNew<T(!new)>(acc: seq<T>, s: seq<T>)
    requires NoDup(acc)
    ensures forall k :: |acc| <= k < |AddAll(acc, s)| ==> AddAll(acc, s)[k] in s && AddAll(acc, s)[k] !in acc
  {
    var r := AddAll(acc, s);
    forall k | |acc| <= k < |r| ensures r[k] in s && r[k] !in acc {
      forall i | 0 <= i < |acc| ensures acc[i] != r[k] {
        assert acc[i] == r[i];
      }
    }
  }

  /** `Dedup` and `FirstOccurrences` agree on every input. */
  lemma {:induction false} DedupIsFirstOccurrences<T(!new)>(s: seq<T>)
    ensures Dedup(s) == FirstOccurrences(s)
    decreases |s|
  {
    if s != [] {
      var init := s[..|s| - 1];
      var x := s[|s| - 1];
      assert init + [x] == s;
      DedupIsFirstOccurrences(init);
      AddAllConcat([], init, [x]);
      var d := Dedup(init);
      assert [x][1..] == [];
      if x in d {
        assert AddAll(d, [x]) == AddAll(d, []);
      } else {
        assert AddAll(d, [x]) == AddAll(d + [x], []);
      }
    }
  }

  /** `s.filter(id => !ids.includes(id))`. */
  function Remove<T(==,!new)>(s: seq<T>, ids: seq<T>): (r: seq<T>)
    ensures forall x :: x in r <==> x in s && x !in ids
    ensures |r| <= |s|
    ensures NoDup(s) ==> NoDup(r)
  {
    if s == [] then []
    else
      var rest := Remove(s[1..], ids);
      if s[0] in ids then rest
      else (
        assert NoDup(s) ==> s[0] !in rest by {
          if NoDup(s) {
            HeadNotInTail(s);
            TailNoDup(s);
          }
        }
        assert NoDup(s) ==> NoDup(s[1..]) by {
          if NoDup(s) {
            TailNoDup(s);
          }
        }
        [s[0]] + rest)
  }

  /** Filtering keeps the relative order: it distributes over concatenation. */
  lemma {:induction false} RemoveConcat<T(!new)>(a: seq<T>, b: seq<T>, ids: seq<T>)
    ensures Remove(a + b, ids) == Remove(a, ids) + Remove(b, ids)
    decreases |a|
  {
    if a == [] {
      assert a + b == b;
    } else {
      assert (a + b)[0] == a[0] && (a + b)[1..] == a[1..] + b;
      RemoveConcat(a[1..], b, ids);
    }
  }

  /** Removing ids that are not selected leaves the selection as it was. */
  lemma {:induction false} RemoveNothing<T(!new)>(s: seq<T>, ids: seq<T>)
    requires forall x :: x in ids ==> x !in s
    ensures Remove(s, ids) == s
    decreases |s|
  {
    if s != [] {
      assert s[0] in s;
      assert forall x :: x in s[1..] ==> x in s;
      RemoveNothing(s[1..], ids);
      assert [s[0]] + s[1..] == s;
    }
  }

  /** The active id: the last selected id, or `null` for an empty selection. */
  function ActiveOf(sel: seq<string>): (r: Option<string>)
    ensures r.None? <==> sel == []
    ensures r.Some? ==> r.value in sel && r.value == sel[|sel| - 1]
  {
    if |sel| > 0 then Some(sel[|sel| - 1]) else None
  }

  /** The selection after `select(ids, append)`. */
  function Selected(current: seq<string>, ids: seq<string>, append: bool): (r: seq<string>)
    ensures !append ==> r == ids
    ensures append ==> forall x :: x in r <==> x in current || x in ids
    ensures append ==> NoDup(r)
  {
    if append then Dedup(current + ids) else ids
  }
}
