/** Runtime overrides on top of a reloadable base, over whole runs of set and reload. */
module ConfigManager {
  import opened Wrappers
  import opened ConfigTree
  import opened ConfigDiff

  datatype State = State(resolved: Tree, overrides: Tree)

  // A reload carries the freshly read base layers, or None when the file cannot be read.
  datatype Op = SetOp(key: string, value: Value) | ReloadOp(base: Option<Tree>)

  function Put(t: Tree, key: string, value: Value): Tree {
    if key == "" then t else SetAt(t, Split(key), value)
  }

  function Step(s: State, op: Op): State {
    match op
    case SetOp(key, value) => State(Put(s.resolved, key, value), Put(s.overrides, key, value))
    case ReloadOp(None) => s
    case ReloadOp(Some(base)) => State(DeepMerge(base, s.overrides), s.overrides)
  }

  function Run(s: State, ops: seq<Op>): State {
    if ops == [] then s else Step(Run(s, ops[..|ops| - 1]), ops[|ops| - 1])
  }

  class Manager {
    var config: Tree
    var runtimeOverrides: Tree

    ghost function View(): State
      reads this
    {
      State(config, runtimeOverrides)
    }

    constructor (base: Tree)
      ensures View() == State(DeepMerge(base, map[]), map[])
    {
      config := DeepMerge(base, map[]);
      runtimeOverrides := map[];
    }

    method Get(key: string) returns (found: Option<Value>)
      ensures found == if key == "" then None else Lookup(Section(config), Split(key))
    {
      found := DotGet(config, key);
    }

    // Callbacks fire, with the value before and the new one, when the key was missing or held something else.
    method Set(key: string, value: Value) returns (fired: Option<Change>)
      modifies this
      ensures View() == Step(old(View()), SetOp(key, value))
      ensures var before := if key == "" then None else Lookup(Section(old(config)), Split(key));
        fired == if before == Some(value) then None else Some(Change(before, Some(value)))
    {
      var oldValue := DotGet(config, key);
      if key != "" {
        config := SetAt(config, Split(key), value);
        runtimeOverrides := SetAt(runtimeOverrides, Split(key), value);
      }
      if oldValue == None || oldValue.value != value {
        fired := Some(Change(oldValue, Some(value)));
      } else {
        fired := None;
      }
    }

    method Reload(base: Option<Tree>) returns (changes: Changes)
      modifies this
      ensures View() == Step(old(View()), ReloadOp(base))
      ensures IsReport(changes, old(config), config, "")
    {
      var oldConfig := config;
      if base.Some? {
        config := MergeLoop(base.value, runtimeOverrides);
      }
      changes := DictDiff(oldConfig, config, "");
    }
  }

  // ---------------------------------------------------------------- durability

  // No operation sets the path itself, something above it or something below it.
  ghost predicate Undisturbed(ops: seq<Op>, path: Path) {
    forall op :: op in ops && op.SetOp? && op.key != "" ==> !Comparable(Split(op.key), path)
  }

  ghost predicate Holds(s: State, path: Path, text: string) {
    && Lookup(Section(s.resolved), path) == Some(Scalar(text))
    && Lookup(Section(s.overrides), path) == Some(Scalar(text))
  }

  lemma {:induction false} StaysHeld(s: State, ops: seq<Op>, path: Path, text: string)
    requires path != [] && Holds(s, path, text) && Undisturbed(ops, path)
    ensures Holds(Run(s, ops), path, text)
  {
    if ops != [] {
      var n := |ops| - 1;
      var op := ops[n];
      assert ops == ops[..n] + [op];
      StaysHeld(s, ops[..n], path, text);
      var before := Run(s, ops[..n]);
      if op.SetOp? && op.key != "" {
        SetElsewhere(before.resolved, Split(op.key), op.value, path);
        SetElsewhere(before.overrides, Split(op.key), op.value, path);
      } else if op.ReloadOp? && op.base.Some? {
        MergeLookup(op.base.value, before.overrides, path);
      }
    }
  }

  // A scalar set at a key is still read there after any run of sets at unrelated keys and reloads
  // of arbitrary, changing base files.
  lemma OverrideIsDurable(s: State, before: seq<Op>, key: string, text: string, after: seq<Op>)
    requires key != "" && Undisturbed(after, Split(key))
    ensures Lookup(Section(Run(s, before + [SetOp(key, Scalar(text))] + after).resolved), Split(key))
         == Some(Scalar(text))
  {
    var mid := Step(Run(s, before), SetOp(key, Scalar(text)));
    SetThenLookup(Run(s, before).resolved, Split(key), Scalar(text));
    SetThenLookup(Run(s, before).overrides, Split(key), Scalar(text));
    StaysHeld(mid, after, Split(key), text);
    assert (before + [SetOp(key, Scalar(text))])[..|before|] == before;
    RunConcat(s, before + [SetOp(key, Scalar(text))], after);
  }

  lemma {:induction false} RunConcat(s: State, a: seq<Op>, b: seq<Op>)
    ensures Run(s, a + b) == Run(Run(s, a), b)
    decreases |b|
  {
    hide Run, Step;
    if b == [] {
      assert a + b == a;
      RunNothing(Run(s, a));
    } else {
      var n := |b| - 1;
      RunConcat(s, a, b[..n]);
      RunSnoc(s, a + b[..n], b[n]);
      RunSnoc(Run(s, a), b[..n], b[n]);
      assert b == b[..n] + [b[n]] && a + b == a + b[..n] + [b[n]];
    }
  }

  lemma RunNothing(s: State)
    ensures Run(s, []) == s
  {
  }

  lemma RunSnoc(s: State, ops: seq<Op>, op: Op)
    ensures Run(s, ops + [op]) == Step(Run(s, ops), op)
  {
    assert (ops + [op])[..|ops|] == ops;
  }

  // A set is invisible at every key neither above nor below it.
  lemma SetIsLocal(s: State, key: string, value: Value, other: Path)
    requires key == "" || !Comparable(Split(key), other)
    ensures Lookup(Section(Step(s, SetOp(key, value)).resolved), other) == Lookup(Section(s.resolved), other)
    ensures Lookup(Section(Step(s, SetOp(key, value)).overrides), other) == Lookup(Section(s.overrides), other)
  {
    if key != "" {
      SetElsewhere(s.resolved, Split(key), value, other);
      SetElsewhere(s.overrides, Split(key), value, other);
    }
  }

  // What a reload leaves at a key just set: a section is merged into the base section there, so
  // only scalars, and sections over no base section, are sure to be read back as set.
  lemma ReloadAfterSet(s: State, key: string, value: Value, base: Tree)
    requires key != ""
    ensures var now := Run(s, [SetOp(key, value), ReloadOp(Some(base))]);
      var below := Lookup(Section(base), Split(key));
      Lookup(Section(now.resolved), Split(key)) ==
        if value.Section? && below.Some? && below.value.Section? then
          Some(Section(DeepMerge(below.value.entries, value.entries)))
        else Some(value)
  {
    var ops := [SetOp(key, value), ReloadOp(Some(base))];
    assert ops[..1] == [SetOp(key, value)] && ops[..1][..0] == [];
    assert Run(s, ops[..1]) == Step(s, SetOp(key, value));
    SetThenLookup(s.overrides, Split(key), value);
    MergeLookup(base, Put(s.overrides, key, value), Split(key));
  }

  // ---------------------------------------------------------------- live view versus reload

  // The tree holds nothing that setting the path to the value would leave beside it.
  predicate OnlyAlong(t: Tree, path: Path, value: Value)
    requires path != []
    decreases |path|
  {
    forall k :: k in t ==>
      && k == path[0]
      && (t[k].Section? ==>
            if |path| > 1 then OnlyAlong(t[k].entries, path[1..], value)
            else value.Section? ==> Covers(value.entries, t[k].entries))
  }

  // No override above the path, nor the value itself, hides base keys that a reload would bring back.
  predicate NothingToRevive(base: Tree, over: Tree, path: Path, value: Value)
    requires path != []
    decreases |path|
  {
    var k := path[0];
    k in base && base[k].Section? ==>
      if |path| == 1 then value.Section? ==> Covers(value.entries, base[k].entries)
      else if k in over && over[k].Scalar? then OnlyAlong(base[k].entries, path[1..], value)
      else NothingToRevive(base[k].entries, Child(over, k), path[1..], value)
  }

  lemma MergeNothing(base: Tree)
    ensures DeepMerge(base, map[]) == base
    ensures DeepMerge(map[], base) == base
  {
  }

  // A chain of sections swallows a base that holds nothing off it.
  lemma {:induction false} ChainMerge(base: Tree, path: Path, value: Value)
    requires path != []
    ensures DeepMerge(base, SetAt(map[], path, value)) == SetAt(map[], path, value)
      <==> OnlyAlong(base, path, value)
    decreases |path|
  {
    hide DeepMerge, Covers;
    var k := path[0];
    var chain := SetAt(map[], path, value);
    var merged := DeepMerge(base, chain);
    assert chain.Keys == {k};
    forall j ensures j != k ==> At(merged, j) == At(base, j) && At(chain, j) == None {
      MergeAt(base, chain, j);
    }
    MergeAt(base, chain, k);
    if k in base && base[k].Section? {
      if |path| > 1 {
        ChainMerge(base[k].entries, path[1..], value);
      } else if value.Section? {
        MergeCovered(base[k].entries, value.entries);
      }
    }
    forall j | j in base && merged == chain ensures j == k {
      assert At(base, j).Some? && At(merged, j) == At(chain, j);
    }
    if At(merged, k) == At(chain, k) && forall j :: j in base ==> j == k {
      forall j ensures At(merged, j) == At(chain, j) {
        assert j != k ==> At(base, j) == None;
      }
      SameAt(merged, chain);
    }
  }

  // Setting a value and then merging the base agrees with setting it in the merged tree exactly
  // when nothing that the set hides is still in the base: otherwise those keys come back on reload.
  lemma {:induction false} SetCommutesWithMerge(base: Tree, over: Tree, path: Path, value: Value)
    requires path != []
    ensures DeepMerge(base, SetAt(over, path, value)) == SetAt(DeepMerge(base, over), path, value)
      <==> NothingToRevive(base, over, path, value)
    decreases |path|
  {
    hide DeepMerge, Covers, OnlyAlong;
    var k := path[0];
    var merged := DeepMerge(base, SetAt(over, path, value));
    var live := SetAt(DeepMerge(base, over), path, value);
    forall j ensures j != k ==> At(merged, j) == At(live, j) {
      MergeAt(base, SetAt(over, path, value), j);
      MergeAt(base, over, j);
    }
    MergeAt(base, SetAt(over, path, value), k);
    MergeAt(base, over, k);
    if k in base && base[k].Section? {
      if |path| == 1 {
        if value.Section? {
          MergeCovered(base[k].entries, value.entries);
        }
      } else if k in over && over[k].Scalar? {
        ChainMerge(base[k].entries, path[1..], value);
      } else {
        MergeNothing(base[k].entries);
        SetCommutesWithMerge(base[k].entries, Child(over, k), path[1..], value);
      }
    }
    if At(merged, k) == At(live, k) {
      SameAt(merged, live);
    }
  }

  // ---------------------------------------------------------------- runs without drift

  // The base layers read last.
  function BaseAfter(base: Tree, ops: seq<Op>): Tree {
    if ops == [] then base
    else
      var op := ops[|ops| - 1];
      if op.ReloadOp? && op.base.Some? then op.base.value else BaseAfter(base, ops[..|ops| - 1])
  }

  // The live view is what reloading the last base would produce.
  predicate InSync(base: Tree, ops: seq<Op>) {
    var s := Run(State(base, map[]), ops);
    s.resolved == DeepMerge(BaseAfter(base, ops), s.overrides)
  }

  // The operation is no set that hides base keys.
  predicate Harmless(base: Tree, ops: seq<Op>, op: Op) {
    op.SetOp? && op.key != "" ==>
      NothingToRevive(BaseAfter(base, ops), Run(State(base, map[]), ops).overrides, Split(op.key), op.value)
  }

  lemma StepInSync(base: Tree, ops: seq<Op>, op: Op)
    requires InSync(base, ops)
    ensures InSync(base, ops + [op]) <==> Harmless(base, ops, op)
  {
    hide DeepMerge, NothingToRevive;
    assert (ops + [op])[..|ops|] == ops;
    if op.SetOp? && op.key != "" {
      SetCommutesWithMerge(BaseAfter(base, ops), Run(State(base, map[]), ops).overrides, Split(op.key), op.value);
    }
  }

  // Over any run of sets of any values and reloads of any bases, the live view is at every moment what a
  // reload would produce, exactly when no set hides base keys.
  lemma {:induction false} LiveViewNeverDrifts(base: Tree, ops: seq<Op>)
    ensures (forall k :: 0 <= k <= |ops| ==> InSync(base, ops[..k]))
      <==> (forall k :: 0 <= k < |ops| ==> Harmless(base, ops[..k], ops[k]))
  {
    hide InSync, Harmless;
    if ops == [] {
      StartsInSync(base);
      assert ops[..0] == [];
    } else {
      var n := |ops| - 1;
      var front := ops[..n];
      LiveViewNeverDrifts(base, front);
      assert forall k :: 0 <= k <= n ==> front[..k] == ops[..k];
      assert ops[..n] == front && ops[..n + 1] == front + [ops[n]];
      if forall k :: 0 <= k <= n ==> InSync(base, ops[..k]) {
        assert InSync(base, ops[..n]);
        StepInSync(base, front, ops[n]);
      }
    }
  }

  lemma StartsInSync(base: Tree)
    ensures InSync(base, [])
  {
    MergeNothing(base);
  }
}
