/**
 * Choosing a name for a new scene that no existing scene has: the trimmed
 * request (a default when blank), or else the request followed by the
 * first free counter, `name (1)`, `name (2)`, ...
 */
module SceneNames {
  import opened Text

  datatype SceneListItem = SceneListItem(id: int, name: string, isActive: bool, updatedAt: string)

  /** The name a blank request falls back to: "new scene". */
  const UntitledScene := "新建场景"

  /** `existingScenes.map(s => s.name)`. */
  function Names(scenes: seq<SceneListItem>): (r: seq<string>)
    ensures |r| == |scenes|
    ensures forall i :: 0 <= i < |r| ==> r[i] == scenes[i].name
  {
    seq(|scenes|, i requires 0 <= i < |scenes| => scenes[i].name)
  }

  /** `baseName.trim() || '新建场景'`. */
  function RequestedName(baseName: string): (r: string)
    ensures r != []
    ensures Trim(baseName) != [] ==> r == Trim(baseName)
    ensures (forall i :: 0 <= i < |baseName| ==> IsWhitespace(baseName[i])) ==> r == UntitledScene
  {
    var trimmed := Trim(baseName);
    if trimmed != [] then trimmed else UntitledScene
  }

  /** A requested name asks for itself: the name the flow trims is the name the search starts from. */
  lemma RequestedNameIdempotent(baseName: string)
    ensures RequestedName(RequestedName(baseName)) == RequestedName(baseName)
  {
    TrimIdempotent(baseName);
    UntitledIsTrimmed();
  }

  lemma UntitledIsTrimmed()
    ensures Trim(UntitledScene) == UntitledScene
  {
    var u := UntitledScene;
    assert !IsWhitespace(u[0]);
  }

  /** `${name} (${k})`. */
  function Suffixed(name: string, k: nat): (r: string)
    ensures |r| > |name|
  {
    name + " (" + NatToString(k) + ")"
  }

  /** Different counters give different suffixed names. */
  lemma SuffixedInjective(name: string, j: nat, k: nat)
    requires Suffixed(name, j) == Suffixed(name, k)
    ensures j == k
  {
    var p := name + " (";
    var a, b := Suffixed(name, j), Suffixed(name, k);
    assert a == p + (NatToString(j) + ")") && b == p + (NatToString(k) + ")");
    assert a[|p|..] == NatToString(j) + ")";
    assert b[|p|..] == NatToString(k) + ")";
    var sj, sk := NatToString(j) + ")", NatToString(k) + ")";
    assert sj[..|sj| - 1] == NatToString(j) && sk[..|sk| - 1] == NatToString(k);
    NatToStringInjective(j, k);
  }

  /** The suffixed names of the counters 1 up to, not including, `c`. */
  ghost function Tried(name: string, c: nat): set<string> {
    set j | 1 <= j < c :: Suffixed(name, j)
  }

  lemma TriedStep(name: string, c: nat)
    requires c >= 1
    ensures Suffixed(name, c) !in Tried(name, c)
    ensures Tried(name, c + 1) == Tried(name, c) + {Suffixed(name, c)}
  {
    forall j | 1 <= j < c ensures Suffixed(name, j) != Suffixed(name, c) {
      if Suffixed(name, j) == Suffixed(name, c) {
        SuffixedInjective(name, j, c);
      }
    }
  }

  lemma SubsetSize<T>(a: set<T>, b: set<T>)
    requires a <= b
    ensures |a| <= |b|
  {
    assert b == a + (b - a);
  }

  /** A sequence holds at most as many distinct elements as it is long. */
  lemma {:induction false} DistinctBound(s: seq<string>)
    ensures |(set x | x in s)| <= |s|
  {
    if s != [] {
      var init := s[..|s| - 1];
      DistinctBound(init);
      assert (set x | x in s) == (set x | x in init) + {s[|s| - 1]};
    }
  }

  /**
   * `r` is the name chosen for `requested` among `existing`: no existing scene
   * has it; it is `requested` itself when that is free, and otherwise the
   * requested name with the smallest free counter `k`, which is at most the
   * number of existing scenes.
   */
  ghost predicate UniqueName(r: string, requested: string, existing: seq<SceneListItem>) {
    && r !in Names(existing)
    && (requested !in Names(existing) ==> r == requested)
    && (requested in Names(existing) ==>
         exists k :: 1 <= k <= |existing| && r == Suffixed(requested, k)
           && forall j :: 1 <= j < k ==> Suffixed(requested, j) in Names(existing))
  }

  /**
   * `getUniqueSceneName(baseName, existingScenes)`: the requested name when
   * it is free, else the requested name with the smallest counter `k` whose
   * suffixed form is free; `k` never exceeds the number of existing scenes.
   */
  method GetUniqueSceneName(baseName: string, existing: seq<SceneListItem>) returns (r: string)
    ensures UniqueName(r, RequestedName(baseName), existing)
  {
    var name := RequestedName(baseName);
    var names := Names(existing);
    if name !in names {
      return name;
    }
    var counter := FirstFreeCounter(name, names);
    r := Suffixed(name, counter);
  }

  /** What the counter loop knows before it tries `counter`. */
  ghost predicate CounterInvariant(name: string, names: seq<string>, counter: nat) {
    && counter >= 1
    && (forall j :: 1 <= j < counter ==> Suffixed(name, j) in names)
    && Tried(name, counter) + {name} <= (set x | x in names)
    && |Tried(name, counter)| == counter - 1
  }

  lemma CounterStep(name: string, names: seq<string>, counter: nat)
    requires CounterInvariant(name, names, counter) && Suffixed(name, counter) in names
    ensures CounterInvariant(name, names, counter + 1)
    ensures counter < |names|
  {
    TriedStep(name, counter);
    DistinctBound(names);
    SubsetSize(Tried(name, counter) + {Suffixed(name, counter)} + {name}, set x | x in names);
    forall j | 1 <= j < counter + 1 ensures Suffixed(name, j) in names {
      if j < counter {
        assert Suffixed(name, j) in names;
      }
    }
  }

  /** The counter loop: the first `k >= 1` whose suffixed name is not taken. */
  method FirstFreeCounter(name: string, names: seq<string>) returns (counter: nat)
    requires name in names
    ensures 1 <= counter <= |names| && Suffixed(name, counter) !in names
    ensures forall j :: 1 <= j < counter ==> Suffixed(name, j) in names
  {
    counter := 1;
    assert Tried(name, 1) == {};
    while Suffixed(name, counter) in names
      invariant CounterInvariant(name, names, counter)
      decreases |names| - counter
    {
      CounterStep(name, names, counter);
      counter := counter + 1;
    }
    assert Tried(name, counter) !! {name};
    DistinctBound(names);
    SubsetSize(Tried(name, counter) + {name}, set x | x in names);
  }
}
