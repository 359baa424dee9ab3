/**
 * Nested configuration dictionaries: dotted-key lookup and update, deep merge, and the
 * diff that drives change callbacks.
 */
module ConfigTree {
  import opened Wrappers

  // A scalar leaf (any non-dict value) or a nested dict.
  datatype Value = Scalar(text: string) | Section(entries: Tree)

  type Tree = map<string, Value>
  type Path = seq<string>

  // ---------------------------------------------------------------- dotted keys

  // str.split("."): never empty, keeps empty parts.
  function Split(key: string): (parts: seq<string>)
    ensures parts != []
  {
    if key == "" then [""]
    else
      var rest := Split(key[1..]);
      if key[0] == '.' then [""] + rest else [[key[0]] + rest[0]] + rest[1..]
  }

  function Join(path: Path): string
    requires path != []
  {
    if |path| == 1 then path[0] else path[0] + "." + Join(path[1..])
  }

  predicate DotFree(path: Path) {
    forall name :: name in path ==> '.' !in name
  }

  lemma {:induction false} SplitName(name: string, rest: string)
    requires '.' !in name
    ensures Split(name + "." + rest) == [name] + Split(rest)
    ensures Split(name) == [name]
  {
    if name == "" {
      assert name + "." + rest == "." + rest;
    } else {
      SplitName(name[1..], rest);
      assert (name + "." + rest)[1..] == name[1..] + "." + rest;
      assert [name[0]] + name[1..] == name;
    }
  }

  // A path of dot-free names survives the dotted notation.
  lemma {:induction false} SplitJoin(path: Path)
    requires path != [] && DotFree(path)
    ensures Split(Join(path)) == path
  {
    assert path[0] in path;
    if |path| == 1 {
      SplitName(path[0], "");
    } else {
      SplitJoin(path[1..]);
      SplitName(path[0], Join(path[1..]));
    }
  }

  // Splitting any key gives dot-free names that join to it again.
  lemma {:induction false} JoinSplit(key: string)
    ensures DotFree(Split(key)) && Join(Split(key)) == key
  {
    if key != "" {
      var rest := Split(key[1..]);
      JoinSplit(key[1..]);
      if key[0] == '.' {
        assert ([""] + rest)[1..] == rest;
      } else {
        assert ([[key[0]] + rest[0]] + rest[1..])[1..] == rest[1..];
        assert rest[0] in rest;
      }
    }
  }

  // ---------------------------------------------------------------- lookup and update

  function Lookup(v: Value, path: Path): Option<Value> {
    if path == [] then Some(v)
    else if v.Section? && path[0] in v.entries then Lookup(v.entries[path[0]], path[1..])
    else None
  }

  function Child(t: Tree, name: string): Tree {
    if name in t && t[name].Section? then t[name].entries else map[]
  }

  // Intermediate scalars give way to fresh sections.
  function SetAt(t: Tree, path: Path, value: Value): Tree
    requires path != []
    decreases |path|
  {
    if |path| == 1 then t[path[0] := value]
    else t[path[0] := Section(SetAt(Child(t, path[0]), path[1..], value))]
  }

  predicate Comparable(p: Path, q: Path) {
    p <= q || q <= p
  }

  lemma {:induction false} SetThenLookup(t: Tree, path: Path, value: Value)
    requires path != []
    ensures Lookup(Section(SetAt(t, path, value)), path) == Some(value)
    decreases |path|
  {
    if |path| == 1 {
      assert path[1..] == [];
    } else {
      SetThenLookup(Child(t, path[0]), path[1..], value);
    }
  }

  // A set leaves every key alone that is neither above nor below it.
  lemma {:induction false} SetElsewhere(t: Tree, path: Path, value: Value, other: Path)
    requires path != [] && !Comparable(path, other)
    ensures Lookup(Section(SetAt(t, path, value)), other) == Lookup(Section(t), other)
    decreases |path|
  {
    if path[0] == other[0] {
      assert |path| == 1 ==> path <= other;
      assert !Comparable(path[1..], other[1..]) by {
        assert path == [path[0]] + path[1..] && other == [other[0]] + other[1..];
      }
      assert other[1..] != [];
      SetElsewhere(Child(t, path[0]), path[1..], value, other[1..]);
    }
  }

  method DotGet(d: Tree, key: string) returns (found: Option<Value>)
    ensures found == if key == "" then None else Lookup(Section(d), Split(key))
  {
    if key == "" {
      return None;
    }
    var parts := Split(key);
    var current := Section(d);
    for i := 0 to |parts|
      invariant Lookup(Section(d), parts) == Lookup(current, parts[i..])
    {
      if current.Section? && parts[i] in current.entries {
        current := current.entries[parts[i]];
      } else {
        return None;
      }
    }
    return Some(current);
  }

  // ---------------------------------------------------------------- deep merge

  function DeepMerge(base: Tree, over: Tree): Tree
    decreases Section(over)
  {
    map k | k in base.Keys + over.Keys ::
      if k !in over then base[k]
      else if k in base && base[k].Section? && over[k].Section? then
        Section(DeepMerge(base[k].entries, over[k].entries))
      else over[k]
  }

  // The merged value of one key the override holds.
  function MergedValue(base: Tree, over: Tree, k: string): Value
    requires k in over
  {
    if k in base && base[k].Section? && over[k].Section? then
      Section(DeepMerge(base[k].entries, over[k].entries))
    else over[k]
  }

  // `result` holds the merged values of the keys of `over` not in `todo`, and base values otherwise.
  ghost predicate MergedSoFar(base: Tree, over: Tree, todo: set<string>, result: Tree) {
    && result.Keys == base.Keys + (over.Keys - todo)
    && forall k :: k in result ==>
         result[k] == if k in over && k !in todo then MergedValue(base, over, k) else base[k]
  }

  lemma MergedOneMore(base: Tree, over: Tree, todo: set<string>, result: Tree, key: string)
    requires MergedSoFar(base, over, todo, result) && key in todo && key in over
    ensures MergedSoFar(base, over, todo - {key}, result[key := MergedValue(base, over, key)])
    ensures key in result <==> key in base
    ensures key in base ==> result[key] == base[key]
  {
  }

  lemma MergedEnds(base: Tree, over: Tree)
    ensures MergedSoFar(base, over, over.Keys, base)
    ensures forall result :: MergedSoFar(base, over, {}, result) ==> result == DeepMerge(base, over)
  {
  }

  method MergeLoop(base: Tree, over: Tree) returns (result: Tree)
    ensures result == DeepMerge(base, over)
    decreases Section(over)
  {
    result := base;
    var todo := over.Keys;
    MergedEnds(base, over);
    while todo != {}
      invariant todo <= over.Keys
      invariant MergedSoFar(base, over, todo, result)
      decreases |todo|
    {
      var key :| key in todo;
      var value := over[key];
      MergedOneMore(base, over, todo, result, key);
      if key in result && result[key].Section? && value.Section? {
        assert Section(value.entries) == over[key];
        var merged := MergeLoop(result[key].entries, value.entries);
        result := result[key := Section(merged)];
      } else {
        result := result[key := value];
      }
      todo := todo - {key};
    }
  }

  // Some proper prefix of the path is a scalar in t, so nothing of a lower layer shows through.
  predicate Shadowed(t: Tree, path: Path)
    decreases |path|
  {
    |path| > 1 && path[0] in t &&
    (t[path[0]].Scalar? || Shadowed(t[path[0]].entries, path[1..]))
  }

  // What a merged tree holds at any path, from what the two layers hold there.
  lemma {:induction false} MergeLookup(base: Tree, over: Tree, path: Path)
    requires path != []
    ensures var b, o := Lookup(Section(base), path), Lookup(Section(over), path);
      Lookup(Section(DeepMerge(base, over)), path) ==
        if o == None then (if Shadowed(over, path) then None else b)
        else if o.value.Section? && b.Some? && b.value.Section? then
          Some(Section(DeepMerge(b.value.entries, o.value.entries)))
        else o
    decreases |path|
  {
    var k := path[0];
    if |path| == 1 {
      assert path[1..] == [];
    } else if k in base && k in over && base[k].Section? && over[k].Section? {
      MergeLookup(base[k].entries, over[k].entries, path[1..]);
    }
  }

  predicate BothSections(base: Tree, over: Tree, k: string) {
    k in base && k in over && base[k].Section? && over[k].Section?
  }

  function At(t: Tree, k: string): Option<Value> {
    if k in t then Some(t[k]) else None
  }

  lemma SameAt(a: Tree, b: Tree)
    requires forall k :: At(a, k) == At(b, k)
    ensures a == b
  {
    forall k ensures k in a <==> k in b {
      assert At(a, k) == At(b, k);
    }
    forall k | k in a ensures a[k] == b[k] {
      assert At(a, k) == At(b, k);
    }
  }

  // Every key of the base is in the override, section by section, so a merge keeps nothing of the base.
  predicate Covers(over: Tree, base: Tree)
    decreases Section(base)
  {
    forall k :: k in base ==>
      k in over && (base[k].Section? && over[k].Section? ==> Covers(over[k].entries, base[k].entries))
  }

  lemma {:induction false} MergeCovered(base: Tree, over: Tree)
    ensures DeepMerge(base, over) == over <==> Covers(over, base)
    decreases Section(base)
  {
    var merged := DeepMerge(base, over);
    forall k | k in base && k in over && base[k].Section? && over[k].Section?
      ensures merged[k] == over[k] <==> Covers(over[k].entries, base[k].entries)
    {
      MergeCovered(base[k].entries, over[k].entries);
    }
    assert merged == over <==> forall k :: k in base ==> k in over && merged[k] == over[k];
  }

  // A merged value depends only on the two values under its key.
  lemma MergeAt(base: Tree, over: Tree, k: string)
    ensures At(DeepMerge(base, over), k) ==
      if k !in over then At(base, k)
      else if BothSections(base, over, k) then Some(Section(DeepMerge(base[k].entries, over[k].entries)))
      else At(over, k)
  {
  }

  // A scalar in the middle layer hides the section below it, unless the top section covers that anyway.
  predicate Associates(low: Tree, middle: Tree, top: Tree)
    decreases Section(low), 1
  {
    forall k :: k in low ==> AssociatesAt(low, middle, top, k)
  }

  predicate AssociatesAt(low: Tree, middle: Tree, top: Tree, k: string)
    requires k in low
    decreases Section(low), 0
  {
    k in middle && k in top && low[k].Section? && top[k].Section? ==>
      if middle[k].Section? then Associates(low[k].entries, middle[k].entries, top[k].entries)
      else Covers(top[k].entries, low[k].entries)
  }

  // Merging three layers from below or from above agrees exactly in that case.
  lemma {:induction false} MergeAssociates(low: Tree, middle: Tree, top: Tree)
    ensures DeepMerge(DeepMerge(low, middle), top) == DeepMerge(low, DeepMerge(middle, top))
      <==> Associates(low, middle, top)
    decreases Section(low), 1
  {
    hide DeepMerge, AssociatesAt;
    var below, above := DeepMerge(DeepMerge(low, middle), top), DeepMerge(low, DeepMerge(middle, top));
    forall k ensures At(below, k) == At(above, k) <==> (k in low ==> AssociatesAt(low, middle, top, k)) {
      MergeAssociatesAt(low, middle, top, k);
    }
    if Associates(low, middle, top) {
      SameAt(below, above);
    }
  }

  lemma {:induction false} MergeAssociatesAt(low: Tree, middle: Tree, top: Tree, k: string)
    ensures At(DeepMerge(DeepMerge(low, middle), top), k) == At(DeepMerge(low, DeepMerge(middle, top)), k)
      <==> (k in low ==> AssociatesAt(low, middle, top, k))
    decreases Section(low), 0
  {
    hide DeepMerge, Associates, Covers;
    MergeAt(low, middle, k);
    MergeAt(middle, top, k);
    MergeAt(DeepMerge(low, middle), top, k);
    MergeAt(low, DeepMerge(middle, top), k);
    if k in low && k in middle && k in top && low[k].Section? && top[k].Section? {
      if middle[k].Section? {
        MergeAssociates(low[k].entries, middle[k].entries, top[k].entries);
      } else {
        MergeCovered(low[k].entries, top[k].entries);
      }
    }
  }

  // ---------------------------------------------------------------- diff

  // Values before and after; None when the key is missing.
  datatype Change = Change(before: Option<Value>, after: Option<Value>)

  // The change reported at a path, if any.
  function DiffAt(old_: Tree, new_: Tree, path: Path): Option<Change>
    requires path != []
    decreases |path|
  {
    var k := path[0];
    if |path| > 1 then
      if BothSections(old_, new_, k) then DiffAt(old_[k].entries, new_[k].entries, path[1..]) else None
    else if BothSections(old_, new_, k) || At(old_, k) == At(new_, k) then None
    else Some(Change(At(old_, k), At(new_, k)))
  }

  ghost predicate Changed(old_: Tree, new_: Tree, path: Path) {
    path != [] && DiffAt(old_, new_, path).Some?
  }

  predicate IsSection(v: Option<Value>) {
    v.Some? && v.value.Section?
  }

  // A path is reported exactly when it leads through sections of both trees to values that differ and are not
  // both sections; the report holds the two values, None for a missing one.
  lemma {:induction false} ReportedIff(old_: Tree, new_: Tree, path: Path)
    requires path != []
    ensures var above := path[..|path| - 1];
      var a, b := Lookup(Section(old_), path), Lookup(Section(new_), path);
      && (Changed(old_, new_, path) <==>
            && IsSection(Lookup(Section(old_), above)) && IsSection(Lookup(Section(new_), above))
            && a != b && !(IsSection(a) && IsSection(b)))
      && (Changed(old_, new_, path) ==> DiffAt(old_, new_, path).value == Change(a, b))
    decreases |path|
  {
    var k, above := path[0], path[..|path| - 1];
    if |path| == 1 {
      assert above == [] && path[1..] == [];
    } else {
      assert above[1..] == path[1..][..|path| - 2];
      if BothSections(old_, new_, k) {
        ReportedIff(old_[k].entries, new_[k].entries, path[1..]);
      }
    }
  }

  // Reported paths never nest.
  lemma {:induction false} ChangesIncomparable(old_: Tree, new_: Tree, p: Path, q: Path)
    requires Changed(old_, new_, p) && Changed(old_, new_, q) && p != q
    ensures !Comparable(p, q)
    decreases |p|
  {
    if p[0] == q[0] {
      var k := p[0];
      assert p == [k] + p[1..] && q == [k] + q[1..];
      if BothSections(old_, new_, k) {
        ChangesIncomparable(old_[k].entries, new_[k].entries, p[1..], q[1..]);
      }
    }
  }

  // ---------------------------------------------------------------- patch

  function RemoveAt(t: Tree, path: Path): Tree
    requires path != []
    decreases |path|
  {
    if |path| == 1 then t - {path[0]}
    else if path[0] in t && t[path[0]].Section? then
      t[path[0] := Section(RemoveAt(t[path[0]].entries, path[1..]))]
    else t
  }

  function Patch(t: Tree, path: Path, after: Option<Value>): Tree
    requires path != []
  {
    if after.Some? then SetAt(t, path, after.value) else RemoveAt(t, path)
  }

  function Tails(done: set<Path>, k: string): set<Path> {
    set p | p in done && |p| > 1 && p[0] == k :: p[1..]
  }

  // The old tree with the changes at `done` already applied.
  ghost function Blend(old_: Tree, new_: Tree, done: set<Path>): Tree
    decreases Section(old_)
  {
    map k | k in old_.Keys + new_.Keys && (if [k] in done then k in new_ else k in old_) ::
      if BothSections(old_, new_, k) then
        Section(Blend(old_[k].entries, new_[k].entries, Tails(done, k)))
      else if [k] in done then new_[k]
      else old_[k]
  }

  lemma {:induction false} BlendNothing(old_: Tree, new_: Tree)
    ensures Blend(old_, new_, {}) == old_
    decreases Section(old_)
  {
    forall k | BothSections(old_, new_, k)
      ensures Blend(old_[k].entries, new_[k].entries, Tails({}, k)) == old_[k].entries
    {
      assert Tails({}, k) == {};
      BlendNothing(old_[k].entries, new_[k].entries);
    }
  }

  // Only the full set of changes turns old into new.
  lemma {:induction false} BlendIsNew(old_: Tree, new_: Tree, done: set<Path>)
    ensures Blend(old_, new_, done) == new_ <==> forall p :: Changed(old_, new_, p) ==> p in done
    decreases Section(old_)
  {
    var b := Blend(old_, new_, done);
    forall k ensures At(b, k) == At(new_, k) <==>
      (forall p :: Changed(old_, new_, p) && p[0] == k ==> p in done)
    {
      BlendAtKey(old_, new_, done, k);
    }
    if forall k :: At(b, k) == At(new_, k) {
      SameAt(b, new_);
    }
  }

  lemma {:induction false} BlendAtKey(old_: Tree, new_: Tree, done: set<Path>, k: string)
    ensures At(Blend(old_, new_, done), k) == At(new_, k) <==>
      (forall p :: Changed(old_, new_, p) && p[0] == k ==> p in done)
    decreases Section(old_), 0
  {
    if BothSections(old_, new_, k) {
      var o, n := old_[k].entries, new_[k].entries;
      BlendIsNew(o, n, Tails(done, k));
      forall p | Changed(old_, new_, p) && p[0] == k
        ensures Changed(o, n, p[1..]) && (p in done <==> p[1..] in Tails(done, k))
      {
        assert p == [k] + p[1..];
        if p[1..] in Tails(done, k) {
          var d :| d in done && |d| > 1 && d[0] == k && d[1..] == p[1..];
          assert d == [k] + d[1..];
        }
      }
      forall q | Changed(o, n, q) ensures Changed(old_, new_, [k] + q) {
        assert ([k] + q)[1..] == q;
      }
    } else {
      forall p | Changed(old_, new_, p) && p[0] == k ensures p == [k] {
      }
      assert Changed(old_, new_, [k]) <==> At(old_, k) != At(new_, k);
    }
  }

  lemma TailsElsewhere(done: set<Path>, path: Path, j: string)
    requires path != [] && path[0] != j
    ensures Tails(done + {path}, j) == Tails(done, j) && ([j] in done + {path} <==> [j] in done)
  {
  }

  lemma TailsHere(done: set<Path>, path: Path)
    requires |path| > 1
    ensures Tails(done + {path}, path[0]) == Tails(done, path[0]) + {path[1..]}
    ensures [path[0]] in done + {path} <==> [path[0]] in done
  {
    assert path == [path[0]] + path[1..];
  }

  // Applying one reported change adds its path to the ones done.
  lemma {:induction false} PatchBlend(old_: Tree, new_: Tree, done: set<Path>, path: Path)
    requires Changed(old_, new_, path)
    ensures Patch(Blend(old_, new_, done), path, DiffAt(old_, new_, path).value.after)
         == Blend(old_, new_, done + {path})
    decreases |path|
  {
    hide Tails;
    var k := path[0];
    var after := DiffAt(old_, new_, path).value.after;
    var b, b' := Blend(old_, new_, done), Blend(old_, new_, done + {path});
    forall j | j != k ensures Tails(done + {path}, j) == Tails(done, j) && ([j] in done + {path} <==> [j] in done) {
      TailsElsewhere(done, path, j);
    }
    if |path| > 1 {
      TailsHere(done, path);
      PatchBlend(old_[k].entries, new_[k].entries, Tails(done, k), path[1..]);
    } else {
      assert path == [k];
    }
    SameAt(Patch(b, path, after), b');
  }

  // No path is reported exactly when nothing changed.
  lemma NoDiffIffEqual(old_: Tree, new_: Tree)
    ensures (forall p :: !Changed(old_, new_, p)) <==> old_ == new_
  {
    BlendNothing(old_, new_);
    BlendIsNew(old_, new_, {});
  }
}
