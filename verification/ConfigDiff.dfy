/** The flat, dotted-key report of what changed between two configuration trees, and replaying it. */
module ConfigDiff {
  import opened Wrappers
  import opened ConfigTree

  type Changes = map<string, Change>

  // ---------------------------------------------------------------- the report

  function DotKey(prefix: string, key: string): string {
    if prefix != "" then prefix + "." + key else key
  }

  // The key a changed path is reported under. An empty prefix counts as none, so leading empty names vanish.
  function ReportKey(prefix: string, path: Path): string
    requires path != []
    decreases |path|
  {
    if |path| == 1 then DotKey(prefix, path[0]) else ReportKey(DotKey(prefix, path[0]), path[1..])
  }

  // Every changed path whose first name is in `keys` is reported, and every report is the change of some
  // such path; when paths share a report key, of one of them.
  ghost predicate IsReportOn(changes: Changes, old_: Tree, new_: Tree, prefix: string, keys: set<string>) {
    && (forall p :: Changed(old_, new_, p) && p[0] in keys ==> ReportKey(prefix, p) in changes)
    && (forall key :: key in changes ==> exists p :: Reports(old_, new_, prefix, key, changes[key], p) && p[0] in keys)
  }

  ghost predicate Reports(old_: Tree, new_: Tree, prefix: string, key: string, change: Change, p: Path) {
    Changed(old_, new_, p) && key == ReportKey(prefix, p) && change == DiffAt(old_, new_, p).value
  }

  ghost predicate IsReport(changes: Changes, old_: Tree, new_: Tree, prefix: string) {
    IsReportOn(changes, old_, new_, prefix, old_.Keys + new_.Keys)
  }

  lemma NothingReported(old_: Tree, new_: Tree, prefix: string)
    ensures IsReportOn(map[], old_, new_, prefix, {})
  {
  }

  lemma ReportOneMore(changes: Changes, more: Changes, old_: Tree, new_: Tree, prefix: string,
                      keys: set<string>, k: string)
    requires IsReportOn(changes, old_, new_, prefix, keys)
    requires IsReportOn(more, old_, new_, prefix, {k})
    ensures IsReportOn(changes + more, old_, new_, prefix, keys + {k})
  {
    hide DiffAt, ReportKey;
    forall key | key in changes + more
      ensures exists p :: Reports(old_, new_, prefix, key, (changes + more)[key], p) && p[0] in keys + {k}
    {
      if key in more {
        var p :| Reports(old_, new_, prefix, key, more[key], p) && p[0] in {k};
        assert p[0] in keys + {k};
      } else {
        var p :| Reports(old_, new_, prefix, key, changes[key], p) && p[0] in keys;
        assert p[0] in keys + {k};
      }
    }
  }

  lemma ReportOfSections(nested: Changes, old_: Tree, new_: Tree, prefix: string, k: string)
    requires BothSections(old_, new_, k)
    requires IsReport(nested, old_[k].entries, new_[k].entries, DotKey(prefix, k))
    ensures IsReportOn(nested, old_, new_, prefix, {k})
  {
    var o, n := old_[k].entries, new_[k].entries;
    forall p | Changed(old_, new_, p) && p[0] in {k}
      ensures ReportKey(prefix, p) in nested
    {
      assert Changed(o, n, p[1..]) && p[1] in o.Keys + n.Keys;
    }
    forall key | key in nested
      ensures exists p :: Reports(old_, new_, prefix, key, nested[key], p) && p[0] in {k}
    {
      var q :| Reports(o, n, DotKey(prefix, k), key, nested[key], q) && q[0] in o.Keys + n.Keys;
      assert ([k] + q)[1..] == q;
      assert Reports(old_, new_, prefix, key, nested[key], [k] + q) && ([k] + q)[0] in {k};
    }
  }

  lemma ReportOfLeaf(old_: Tree, new_: Tree, prefix: string, k: string, change: Option<Change>)
    requires !BothSections(old_, new_, k) && change == DiffAt(old_, new_, [k])
    ensures IsReportOn(if change.Some? then map[DotKey(prefix, k) := change.value] else map[],
                       old_, new_, prefix, {k})
  {
    forall p | Changed(old_, new_, p) && p[0] in {k} ensures p == [k] {
    }
    if change.Some? {
      assert Reports(old_, new_, prefix, DotKey(prefix, k), change.value, [k]) && [k][0] in {k};
    }
  }

  method DictDiff(old_: Tree, new_: Tree, prefix: string) returns (changes: Changes)
    ensures IsReport(changes, old_, new_, prefix)
    decreases Section(old_), 1
  {
    hide IsReportOn;
    changes := map[];
    var todo := old_.Keys + new_.Keys;
    ghost var done: set<string> := {};
    NothingReported(old_, new_, prefix);
    while todo != {}
      invariant done !! todo && done + todo == old_.Keys + new_.Keys
      invariant IsReportOn(changes, old_, new_, prefix, done)
      decreases |todo|
    {
      var key :| key in todo;
      var more := KeyDiff(old_, new_, prefix, key);
      ReportOneMore(changes, more, old_, new_, prefix, done, key);
      changes := changes + more;
      todo := todo - {key};
      done := done + {key};
    }
    assert done == old_.Keys + new_.Keys;
  }

  method KeyDiff(old_: Tree, new_: Tree, prefix: string, key: string) returns (changes: Changes)
    requires key in old_.Keys + new_.Keys
    ensures IsReportOn(changes, old_, new_, prefix, {key})
    decreases Section(old_), 0
  {
    hide IsReportOn;
    var dotKey := if prefix != "" then prefix + "." + key else key;
    if key in old_ && key in new_ && old_[key].Section? && new_[key].Section? {
      assert old_[key] == Section(old_[key].entries);
      changes := DictDiff(old_[key].entries, new_[key].entries, dotKey);
      ReportOfSections(changes, old_, new_, prefix, key);
    } else {
      changes := map[];
      if key !in old_ {
        changes := map[dotKey := Change(None, Some(new_[key]))];
      } else if key !in new_ {
        changes := map[dotKey := Change(Some(old_[key]), None)];
      } else if old_[key] != new_[key] {
        changes := map[dotKey := Change(Some(old_[key]), Some(new_[key]))];
      }
      ReportOfLeaf(old_, new_, prefix, key, DiffAt(old_, new_, [key]));
    }
  }

  // Nothing is reported exactly when the trees are equal.
  lemma ReportsNothingIff(changes: Changes, old_: Tree, new_: Tree)
    requires IsReport(changes, old_, new_, "")
    ensures changes == map[] <==> old_ == new_
  {
    NoDiffIffEqual(old_, new_);
    forall p | Changed(old_, new_, p) ensures changes != map[] {
      assert p[0] in old_.Keys + new_.Keys;
    }
    if changes != map[] {
      var key :| key in changes;
      var p :| Reports(old_, new_, "", key, changes[key], p) && p[0] in old_.Keys + new_.Keys;
    }
  }

  // ---------------------------------------------------------------- sound paths

  // A path that its report key leads back to.
  predicate Sound(path: Path)
    requires path != []
  {
    path[0] != "" && DotFree(path)
  }

  ghost predicate SoundChanges(old_: Tree, new_: Tree) {
    forall p :: Changed(old_, new_, p) ==> Sound(p)
  }

  lemma {:induction false} ReportKeyUnder(prefix: string, path: Path)
    requires path != [] && (prefix != "" || path[0] != "")
    ensures ReportKey(prefix, path) == if prefix != "" then prefix + "." + Join(path) else Join(path)
    decreases |path|
  {
    if |path| > 1 {
      ReportKeyUnder(DotKey(prefix, path[0]), path[1..]);
      if prefix != "" {
        assert prefix + "." + path[0] + "." + Join(path[1..]) == prefix + "." + (path[0] + "." + Join(path[1..]));
      }
    }
  }

  lemma SoundKey(path: Path)
    requires path != [] && Sound(path)
    ensures ReportKey("", path) == Join(path) != "" && Split(Join(path)) == path
  {
    ReportKeyUnder("", path);
    SplitJoin(path);
  }

  // ---------------------------------------------------------------- replaying a report

  // The dotted setter ignores an empty key; a removal deletes what the key names.
  function Apply(t: Tree, key: string, after: Option<Value>): Tree {
    if key == "" then t else Patch(t, Split(key), after)
  }

  // Applies the reported changes key by key.
  function Replay(t: Tree, changes: Changes, keys: seq<string>): Tree
    requires forall key :: key in keys ==> key in changes
  {
    if keys == [] then t
    else
      var n := |keys| - 1;
      Apply(Replay(t, changes, keys[..n]), keys[n], changes[keys[n]].after)
  }

  // The keys a dotted set can express: those not removed.
  function SetKeys(changes: Changes, keys: seq<string>): (sets: seq<string>)
    requires forall key :: key in keys ==> key in changes
    ensures forall key :: key in sets <==> key in keys && changes[key].after.Some?
  {
    if keys == [] then []
    else
      var n := |keys| - 1;
      assert keys == keys[..n] + [keys[n]];
      var front := SetKeys(changes, keys[..n]);
      if changes[keys[n]].after.Some? then front + [keys[n]] else front
  }

  ghost function PathsOf(keys: seq<string>): set<Path> {
    set key | key in keys :: Split(key)
  }

  // With sound changes, a reported key names its changed path.
  lemma KeyOfChange(changes: Changes, old_: Tree, new_: Tree, key: string)
    requires SoundChanges(old_, new_) && IsReport(changes, old_, new_, "") && key in changes
    ensures key != "" && Changed(old_, new_, Split(key)) && changes[key] == DiffAt(old_, new_, Split(key)).value
    ensures Join(Split(key)) == key
  {
    var p :| Reports(old_, new_, "", key, changes[key], p) && p[0] in old_.Keys + new_.Keys;
    SoundKey(p);
  }

  // Each key names a changed path and carries its change.
  ghost predicate Faithful(changes: Changes, old_: Tree, new_: Tree, keys: seq<string>) {
    forall i :: 0 <= i < |keys| ==>
      && keys[i] in changes && keys[i] != ""
      && Changed(old_, new_, Split(keys[i]))
      && changes[keys[i]] == DiffAt(old_, new_, Split(keys[i])).value
  }

  lemma ReportsAreFaithful(changes: Changes, old_: Tree, new_: Tree, keys: seq<string>)
    requires SoundChanges(old_, new_) && IsReport(changes, old_, new_, "")
    requires forall key :: key in keys ==> key in changes
    ensures Faithful(changes, old_, new_, keys)
  {
    forall i | 0 <= i < |keys|
      ensures keys[i] in changes && keys[i] != "" && Changed(old_, new_, Split(keys[i])) &&
        changes[keys[i]] == DiffAt(old_, new_, Split(keys[i])).value
    {
      KeyOfChange(changes, old_, new_, keys[i]);
    }
  }

  lemma {:induction false} ReplayIsBlend(changes: Changes, old_: Tree, new_: Tree, keys: seq<string>)
    requires forall key :: key in keys ==> key in changes
    requires Faithful(changes, old_, new_, keys)
    ensures Replay(old_, changes, keys) == Blend(old_, new_, PathsOf(keys))
  {
    hide Blend, Changed, DiffAt, Split;
    if keys == [] {
      BlendNothing(old_, new_);
      assert PathsOf(keys) == {};
    } else {
      var n := |keys| - 1;
      var front, path := keys[..n], Split(keys[n]);
      ReplayIsBlend(changes, old_, new_, front);
      PatchBlend(old_, new_, PathsOf(front), path);
      assert keys == front + [keys[n]];
      OnePathMore(front, keys[n]);
    }
  }

  lemma OnePathMore(keys: seq<string>, key: string)
    ensures PathsOf(keys + [key]) == PathsOf(keys) + {Split(key)}
  {
    hide Split;
    assert forall other :: other in keys || other == key <==> other in keys + [key];
  }

  lemma ChangedIsReported(changes: Changes, old_: Tree, new_: Tree, p: Path)
    requires SoundChanges(old_, new_) && IsReport(changes, old_, new_, "")
    requires Changed(old_, new_, p)
    ensures Join(p) in changes && Split(Join(p)) == p
    ensures changes[Join(p)] == DiffAt(old_, new_, p).value
  {
    SoundKey(p);
    assert p[0] in old_.Keys + new_.Keys;
    KeyOfChange(changes, old_, new_, Join(p));
  }

  lemma SoundReplay(changes: Changes, old_: Tree, new_: Tree, keys: seq<string>)
    requires SoundChanges(old_, new_) && IsReport(changes, old_, new_, "")
    requires forall key :: key in keys <==> key in changes
    ensures Replay(old_, changes, keys) == new_
  {
    ReportsAreFaithful(changes, old_, new_, keys);
    ReplayIsBlend(changes, old_, new_, keys);
    forall p | Changed(old_, new_, p) ensures p in PathsOf(keys) {
      ChangedIsReported(changes, old_, new_, p);
    }
    BlendIsNew(old_, new_, PathsOf(keys));
  }

  lemma SetKeysCover(changes: Changes, old_: Tree, new_: Tree, keys: seq<string>, p: Path)
    requires SoundChanges(old_, new_) && IsReport(changes, old_, new_, "")
    requires forall key :: key in keys <==> key in changes
    requires Changed(old_, new_, p)
    ensures Join(p) in changes && (p in PathsOf(SetKeys(changes, keys)) <==> changes[Join(p)].after.Some?)
  {
    ChangedIsReported(changes, old_, new_, p);
    forall key | key in keys && Split(key) == p ensures key == Join(p) {
      KeyOfChange(changes, old_, new_, key);
    }
  }

  // Dotted sets alone rebuild the new tree exactly when no key was removed.
  lemma SetsRebuildNewIffNoRemoval(changes: Changes, old_: Tree, new_: Tree, keys: seq<string>)
    requires SoundChanges(old_, new_) && IsReport(changes, old_, new_, "")
    requires forall key :: key in keys <==> key in changes
    ensures Replay(old_, changes, SetKeys(changes, keys)) == new_ <==>
      forall key :: key in changes ==> changes[key].after.Some?
  {
    var sets := SetKeys(changes, keys);
    ReportsAreFaithful(changes, old_, new_, sets);
    ReplayIsBlend(changes, old_, new_, sets);
    BlendIsNew(old_, new_, PathsOf(sets));
    if key :| key in changes && changes[key].after == None {
      KeyOfChange(changes, old_, new_, key);
      SetKeysCover(changes, old_, new_, keys, Split(key));
    } else {
      forall p | Changed(old_, new_, p) ensures p in PathsOf(sets) {
        SetKeysCover(changes, old_, new_, keys, p);
      }
    }
  }

  // Reported keys never name nested paths.
  lemma ReportsAreIndependent(changes: Changes, old_: Tree, new_: Tree)
    requires SoundChanges(old_, new_) && IsReport(changes, old_, new_, "")
    ensures forall a, b :: a in changes && b in changes && a != b ==> !Comparable(Split(a), Split(b))
  {
    forall a, b | a in changes && b in changes && a != b ensures !Comparable(Split(a), Split(b)) {
      KeyOfChange(changes, old_, new_, a);
      KeyOfChange(changes, old_, new_, b);
      ChangesIncomparable(old_, new_, Split(a), Split(b));
    }
  }

  // A dotted key breaks the round trip: setting "a.b" builds a section instead of replacing the leaf.
  lemma DottedKeyBreaksReplay()
    ensures var old_: Tree, new_: Tree := map["a.b" := Scalar("1")], map["a.b" := Scalar("2")];
      && IsReport(map["a.b" := Change(Some(Scalar("1")), Some(Scalar("2")))], old_, new_, "")
      && SetAt(old_, Split("a.b"), Scalar("2")) != new_
  {
    var old_: Tree, new_: Tree := map["a.b" := Scalar("1")], map["a.b" := Scalar("2")];
    var change := Change(Some(Scalar("1")), Some(Scalar("2")));
    SplitName("a", "b");
    SplitName("b", "");
    assert "a" + "." + "b" == "a.b";
    assert Reports(old_, new_, "", "a.b", change, ["a.b"]);
    forall p | Changed(old_, new_, p) ensures p == ["a.b"] {
    }
    assert "a" in SetAt(old_, ["a", "b"], Scalar("2"));
  }
}
