/** Exactly when replaying a configuration report rebuilds the new tree. */
module ConfigReplay {
  import opened Wrappers
  import opened ConfigDiff
  import opened ConfigTree

  // ---------------------------------------------------------------- what one patch does to a path

  lemma {:induction false} RemoveElsewhere(t: Tree, path: Path, other: Path)
    requires path != [] && !Comparable(path, other)
    ensures Lookup(Section(RemoveAt(t, path)), other) == Lookup(Section(t), other)
    decreases |path|
  {
    if path[0] == other[0] {
      assert |path| == 1 ==> path <= other;
      assert path == [path[0]] + path[1..] && other == [other[0]] + other[1..];
      if path[0] in t && t[path[0]].Section? {
        RemoveElsewhere(t[path[0]].entries, path[1..], other[1..]);
      }
    }
  }

  lemma {:induction false} RemoveBelow(t: Tree, path: Path, other: Path)
    requires path != [] && path <= other
    ensures Lookup(Section(RemoveAt(t, path)), other) == None
    decreases |path|
  {
    if |path| > 1 && path[0] in t && t[path[0]].Section? {
      RemoveBelow(t[path[0]].entries, path[1..], other[1..]);
    }
  }

  lemma {:induction false} SetBelow(t: Tree, path: Path, value: Value, other: Path)
    requires path != [] && path <= other
    ensures Lookup(Section(SetAt(t, path, value)), other) == Lookup(value, other[|path|..])
    decreases |path|
  {
    if |path| > 1 {
      SetBelow(Child(t, path[0]), path[1..], value, other[1..]);
      assert other[1..][|path| - 1..] == other[|path|..];
    }
  }

  // What a patch at a prefix leaves at a path.
  function Left(after: Option<Value>, rest: Path): Option<Value> {
    if after.Some? then Lookup(after.value, rest) else None
  }

  lemma PatchAt(t: Tree, path: Path, after: Option<Value>, other: Path)
    requires path != []
    ensures path <= other ==> Lookup(Section(Patch(t, path, after)), other) == Left(after, other[|path|..])
    ensures !Comparable(path, other) ==> Lookup(Section(Patch(t, path, after)), other) == Lookup(Section(t), other)
  {
    hide SetAt, RemoveAt, Lookup;
    if path <= other {
      if after.Some? {
        SetBelow(t, path, after.value, other);
      } else {
        RemoveBelow(t, path, other);
      }
    } else if !Comparable(path, other) {
      if after.Some? {
        SetElsewhere(t, path, after.value, other);
      } else {
        RemoveElsewhere(t, path, other);
      }
    }
  }

  lemma {:induction false} RemoveKeepsNone(t: Tree, path: Path, other: Path)
    requires path != [] && other != [] && Lookup(Section(t), other) == None
    ensures Lookup(Section(RemoveAt(t, path)), other) == None
    decreases |path|
  {
    if |path| > 1 && path[0] in t && t[path[0]].Section? && other[0] == path[0] && |other| > 1 {
      RemoveKeepsNone(t[path[0]].entries, path[1..], other[1..]);
    }
  }

  // ---------------------------------------------------------------- a changed path, before and after

  lemma {:induction false} ChangeIsLookup(old_: Tree, new_: Tree, p: Path)
    requires Changed(old_, new_, p)
    ensures var c := DiffAt(old_, new_, p).value;
      && Lookup(Section(old_), p) == c.before && Lookup(Section(new_), p) == c.after && c.before != c.after
    decreases |p|
  {
    if |p| > 1 {
      ChangeIsLookup(old_[p[0]].entries, new_[p[0]].entries, p[1..]);
    } else {
      assert p[1..] == [];
    }
  }

  lemma {:induction false} ChangedAbove(old_: Tree, new_: Tree, p: Path, q: Path)
    requires Changed(old_, new_, p) && q != [] && q <= p && q != p
    ensures Lookup(Section(new_), q).Some?
    decreases |p|
  {
    assert |p| > 1;
    if |q| > 1 {
      ChangedAbove(old_[p[0]].entries, new_[p[0]].entries, p[1..], q[1..]);
    } else {
      assert q[1..] == [];
    }
  }

  lemma {:induction false} SplitDotFree(key: string)
    ensures DotFree(Split(key))
  {
    if key != "" {
      SplitDotFree(key[1..]);
    }
  }

  // ---------------------------------------------------------------- who can repair a dotted path

  // The report `key` writes at or above p and leaves v there.
  ghost predicate Wrote(changes: Changes, key: string, p: Path, v: Option<Value>) {
    && key in changes && key != "" && Split(key) <= p
    && v == Left(changes[key].after, p[|Split(key)|..])
  }

  // What a dotted path reads after a replay is what it read before, or was written from above: no patch
  // goes through a dotted name.
  lemma {:induction false} LastWriter(old_: Tree, changes: Changes, keys: seq<string>, p: Path)
    requires forall key :: key in keys ==> key in changes
    requires p != [] && !DotFree(p)
    ensures var v := Lookup(Section(Replay(old_, changes, keys)), p);
      v == Lookup(Section(old_), p) || exists key :: key in keys && Wrote(changes, key, p, v)
  {
    hide Patch, Lookup, Split, Left, DotFree;
    if keys != [] {
      var n := |keys| - 1;
      var key := keys[n];
      assert keys == keys[..n] + [key];
      LastWriter(old_, changes, keys[..n], p);
      if key != "" {
        SplitDotFree(key);
        PatchAt(Replay(old_, changes, keys[..n]), Split(key), changes[key].after, p);
        if Split(key) <= p {
          assert key in keys && Wrote(changes, key, p, Lookup(Section(Replay(old_, changes, keys)), p));
        } else {
          DottedNotAbove(p, Split(key));
        }
      }
    }
  }

  lemma DottedNotAbove(p: Path, q: Path)
    requires !DotFree(p) && DotFree(q)
    ensures !(p <= q)
  {
    if p <= q {
      PrefixDotFree(p, q);
    }
  }

  lemma PrefixDotFree(p: Path, q: Path)
    requires p <= q && DotFree(q)
    ensures DotFree(p)
  {
    forall name | name in p ensures '.' !in name {
      assert name in q;
    }
  }

  // A replay of all reports that rebuilds the new tree.
  ghost predicate Rebuilds(changes: Changes, old_: Tree, new_: Tree, keys: seq<string>) {
    && IsReport(changes, old_, new_, "")
    && (forall key :: key in keys <==> key in changes)
    && Replay(old_, changes, keys) == new_
  }

  // Then a changed path with a dotted name was written, through a proper prefix, by a report of an unsound
  // change that holds its new value.
  lemma Repaired(changes: Changes, old_: Tree, new_: Tree, keys: seq<string>, p: Path) returns (key: string, r: Path)
    requires Rebuilds(changes, old_, new_, keys) && Changed(old_, new_, p) && !DotFree(p)
    ensures key in changes && key != "" && Split(key) <= p && Split(key) != p
    ensures DiffAt(old_, new_, p).value.after == Left(changes[key].after, p[|Split(key)|..])
    ensures Reports(old_, new_, "", key, changes[key], r) && !Sound(r)
  {
    hide Replay, Split, Left, DotFree, DiffAt, ReportKey, Lookup, Sound;
    LastWriter(old_, changes, keys, p);
    ChangeIsLookup(old_, new_, p);
    key :| key in keys && Wrote(changes, key, p, Lookup(Section(new_), p));
    SplitDotFree(key);
    r :| Reports(old_, new_, "", key, changes[key], r) && r[0] in old_.Keys + new_.Keys;
    if Sound(r) {
      SoundKey(r);
      ChangesNeverNest(old_, new_, r, p);
      SoundIsDotFree(r);
    }
  }

  lemma SoundIsDotFree(r: Path)
    requires r != [] && Sound(r)
    ensures DotFree(r)
  {
  }

  lemma ChangesNeverNest(old_: Tree, new_: Tree, r: Path, p: Path)
    requires Changed(old_, new_, r) && Changed(old_, new_, p) && r <= p
    ensures r == p
  {
    if r != p {
      ChangesIncomparable(old_, new_, r, p);
    }
  }

  // ---------------------------------------------------------------- keys that begin with a dot

  predicate StartsDotted(key: string) {
    key != "" && key[0] == '.'
  }

  lemma FirstPart(key: string)
    requires key != ""
    ensures Split(key)[0] == "" <==> StartsDotted(key)
    ensures StartsDotted(key) ==> |Split(key)| >= 2
  {
  }

  lemma JoinStart(path: Path)
    requires path != [] && path[0] != ""
    ensures Join(path) != "" && Join(path)[0] == path[0][0]
  {
  }

  // A changed path reported under such a key has empty names before one that begins with a dot.
  predicate HeadDotted(p: Path) {
    p != [] && if p[0] == "" then HeadDotted(p[1..]) else p[0][0] == '.'
  }

  lemma {:induction false} KeyOfHead(p: Path)
    requires p != []
    ensures HeadDotted(p) <==> StartsDotted(ReportKey("", p))
    decreases |p|
  {
    if p[0] != "" {
      ReportKeyUnder("", p);
      JoinStart(p);
    } else if |p| > 1 {
      KeyOfHead(p[1..]);
    }
  }

  lemma {:induction false} HeadIsDotted(p: Path)
    requires HeadDotted(p)
    ensures !DotFree(p)
    decreases |p|
  {
    if p[0] == "" {
      HeadIsDotted(p[1..]);
      assert p == [p[0]] + p[1..];
    } else {
      assert p[0] in p && '.' in p[0];
    }
  }

  // Only empty names lie above that one.
  lemma {:induction false} AboveHead(p: Path, q: Path)
    requires HeadDotted(p) && q != [] && q <= p && DotFree(q)
    ensures q[0] == ""
  {
    assert q[0] in q;
  }

  // Y lies strictly inside X.
  ghost predicate Inside(y: Value, x: Value) {
    exists path :: path != [] && Lookup(x, path) == Some(y)
  }

  lemma {:induction false} LookupJoin(v: Value, p: Path, q: Path)
    requires Lookup(v, p).Some?
    ensures Lookup(v, p + q) == Lookup(Lookup(v, p).value, q)
    decreases |p|
  {
    if p == [] {
      assert p + q == q;
    } else {
      assert (p + q)[1..] == p[1..] + q;
      LookupJoin(v.entries[p[0]], p[1..], q);
    }
  }

  lemma InsideTrans(z: Value, y: Value, x: Value)
    requires Inside(z, y) && Inside(y, x)
    ensures Inside(z, x)
  {
    var p :| p != [] && Lookup(x, p) == Some(y);
    var q :| q != [] && Lookup(y, q) == Some(z);
    LookupJoin(x, p, q);
  }

  lemma {:induction false} LookupSmaller(v: Value, path: Path)
    requires Lookup(v, path).Some?
    ensures path != [] ==> (v decreases to Lookup(v, path).value)
    decreases |path|
  {
    if path != [] {
      LookupSmaller(v.entries[path[0]], path[1..]);
    }
  }

  lemma NotInsideItself(v: Value)
    ensures !Inside(v, v)
  {
    if path :| path != [] && Lookup(v, path) == Some(v) {
      LookupSmaller(v, path);
    }
  }

  ghost predicate SetsInside(changes: Changes, key: string, other: string) {
    && key in changes && changes[key].after.Some? && other in changes && changes[other].after.Some?
    && Inside(changes[key].after.value, changes[other].after.value)
  }

  lemma SetsInsideOrder(changes: Changes, x: string, y: string, z: string)
    ensures !SetsInside(changes, x, x)
    ensures SetsInside(changes, x, y) && SetsInside(changes, y, z) ==> SetsInside(changes, x, z)
  {
    hide Inside;
    if SetsInside(changes, x, x) {
      NotInsideItself(changes[x].after.value);
    }
    if SetsInside(changes, x, y) && SetsInside(changes, y, z) {
      InsideTrans(changes[x].after.value, changes[y].after.value, changes[z].after.value);
    }
  }

  ghost predicate Topped(changes: Changes, s: set<string>, key: string) {
    exists other :: other in s && SetsInside(changes, key, other)
  }

  lemma Above(changes: Changes, s: set<string>, key: string) returns (other: string)
    requires Topped(changes, s, key)
    ensures other in s && SetsInside(changes, key, other)
  {
    other :| other in s && SetsInside(changes, key, other);
  }

  lemma IsTopped(changes: Changes, s: set<string>, key: string, other: string)
    requires other in s && SetsInside(changes, key, other)
    ensures Topped(changes, s, key)
  {
  }

  // In a finite set of reports, not every value can lie strictly inside another.
  lemma {:induction false} NoneInsideAll(changes: Changes, s: set<string>)
    requires forall key :: key in s ==> Topped(changes, s, key)
    ensures s == {}
    decreases s
  {
    hide SetsInside, Topped;
    if x :| x in s {
      var bigger := set y | y in s && SetsInside(changes, x, y);
      SetsInsideOrder(changes, x, x, x);
      assert x !in bigger;
      forall y | y in bigger ensures Topped(changes, bigger, y) {
        var z := Above(changes, s, y);
        SetsInsideOrder(changes, x, y, z);
        IsTopped(changes, bigger, y, z);
      }
      NoneInsideAll(changes, bigger);
      var y := Above(changes, s, x);
      assert y in bigger;
    }
  }

  // So no report under a key that begins with a dot sets a value.
  lemma NothingSetUnderEmpty(changes: Changes, old_: Tree, new_: Tree, keys: seq<string>)
    requires Rebuilds(changes, old_, new_, keys)
    ensures forall key :: key in changes && StartsDotted(key) ==> changes[key].after == None
  {
    hide Rebuilds, Inside, Topped, DiffAt, ReportKey;
    var s := set key | key in changes && StartsDotted(key) && changes[key].after.Some?;
    forall key | key in s ensures Topped(changes, s, key) {
      var other := SetInside(changes, old_, new_, keys, key);
      assert other in s;
      IsTopped(changes, s, key, other);
    }
    NoneInsideAll(changes, s);
    forall key | key in changes && StartsDotted(key) ensures changes[key].after == None {
      assert key !in s;
    }
  }

  lemma ReportedPath(changes: Changes, old_: Tree, new_: Tree, keys: seq<string>, key: string) returns (p: Path)
    requires Rebuilds(changes, old_, new_, keys) && key in changes && StartsDotted(key)
    ensures Reports(old_, new_, "", key, changes[key], p) && HeadDotted(p) && !DotFree(p)
  {
    hide Replay, DiffAt, DotFree, ReportKey, HeadDotted;
    p :| Reports(old_, new_, "", key, changes[key], p) && p[0] in old_.Keys + new_.Keys;
    KeyOfHead(p);
    HeadIsDotted(p);
  }

  // What wrote such a path is itself reported under a key that begins with a dot.
  lemma WriterAbove(changes: Changes, old_: Tree, new_: Tree, keys: seq<string>, p: Path) returns (other: string)
    requires Rebuilds(changes, old_, new_, keys) && Changed(old_, new_, p) && HeadDotted(p) && !DotFree(p)
    ensures other in changes && StartsDotted(other) && Split(other) <= p && Split(other) != p
    ensures DiffAt(old_, new_, p).value.after == Left(changes[other].after, p[|Split(other)|..])
  {
    hide Replay, DiffAt, DotFree, ReportKey, HeadDotted, Left, Lookup, Sound, Split;
    var r;
    other, r := Repaired(changes, old_, new_, keys, p);
    SplitDotFree(other);
    AboveHead(p, Split(other));
    FirstPart(other);
  }

  lemma SetInside(changes: Changes, old_: Tree, new_: Tree, keys: seq<string>, key: string) returns (other: string)
    requires Rebuilds(changes, old_, new_, keys) && key in changes && StartsDotted(key) && changes[key].after.Some?
    ensures StartsDotted(other) && SetsInside(changes, key, other)
  {
    hide Rebuilds, DiffAt, DotFree, ReportKey, HeadDotted, Lookup, Split;
    var p := ReportedPath(changes, old_, new_, keys, key);
    other := WriterAbove(changes, old_, new_, keys, p);
    var rest := p[|Split(other)|..];
    assert rest != [];
    assert Lookup(changes[other].after.value, rest) == Some(changes[key].after.value);
  }

  // A removal under an empty first name is never undone, since only removals are applied there.
  lemma {:induction false} RemovedForGood(old_: Tree, changes: Changes, keys: seq<string>, gone: string, i: nat)
    requires forall key :: key in keys ==> key in changes
    requires forall key :: key in keys && StartsDotted(key) ==> changes[key].after == None
    requires i < |keys| && keys[i] == gone && StartsDotted(gone)
    ensures Lookup(Section(Replay(old_, changes, keys)), Split(gone)) == None
  {
    hide Patch, Lookup, Split;
    var n := |keys| - 1;
    var key, q, before := keys[n], Split(gone), Replay(old_, changes, keys[..n]);
    assert key in keys && gone in keys;
    assert forall k :: k in keys[..n] ==> k in keys;
    FirstPart(gone);
    if key != "" {
      FirstPart(key);
      PatchAt(before, Split(key), changes[key].after, q);
      assert q[|q|..] == [];
      if key != gone {
        assert i < n && keys[..n][i] == gone;
        RemovedForGood(old_, changes, keys[..n], gone, i);
        if StartsDotted(key) {
          PatchKeepsNone(before, Split(key), q);
        } else {
          assert !Comparable(Split(key), q);
        }
      }
    } else {
      assert i < n && keys[..n][i] == gone;
      RemovedForGood(old_, changes, keys[..n], gone, i);
    }
  }

  lemma PatchKeepsNone(t: Tree, path: Path, other: Path)
    requires path != [] && other != [] && Lookup(Section(t), other) == None
    ensures Lookup(Section(Patch(t, path, None)), other) == None
  {
    hide Lookup, RemoveAt;
    RemoveKeepsNone(t, path, other);
  }

  // No report has a key that begins with a dot.
  lemma NoKeyStartsDotted(changes: Changes, old_: Tree, new_: Tree, keys: seq<string>)
    requires Rebuilds(changes, old_, new_, keys)
    ensures forall key :: key in changes ==> !StartsDotted(key)
  {
    hide DiffAt, DotFree, ReportKey, HeadDotted, Lookup, Split, Replay;
    NothingSetUnderEmpty(changes, old_, new_, keys);
    if key :| key in changes && StartsDotted(key) {
      var p := ReportedPath(changes, old_, new_, keys, key);
      var other := WriterAbove(changes, old_, new_, keys, p);
      assert other in keys;
      var i :| 0 <= i < |keys| && keys[i] == other;
      RemovedForGood(old_, changes, keys, other, i);
      ChangedAbove(old_, new_, p, Split(other));
    }
  }

  // ---------------------------------------------------------------- empty first names

  lemma {:induction false} EmptyFirstUntouched(old_: Tree, changes: Changes, keys: seq<string>, p: Path)
    requires forall key :: key in keys ==> key in changes && !StartsDotted(key)
    requires p != [] && p[0] == ""
    ensures Lookup(Section(Replay(old_, changes, keys)), p) == Lookup(Section(old_), p)
  {
    hide Patch, Lookup, Split;
    if keys != [] {
      var n := |keys| - 1;
      assert keys[n] in keys && forall k :: k in keys[..n] ==> k in keys;
      EmptyFirstUntouched(old_, changes, keys[..n], p);
      if keys[n] != "" {
        FirstPart(keys[n]);
        PatchAt(Replay(old_, changes, keys[..n]), Split(keys[n]), changes[keys[n]].after, p);
      }
    }
  }

  lemma NoEmptyFirstName(changes: Changes, old_: Tree, new_: Tree, keys: seq<string>)
    requires Rebuilds(changes, old_, new_, keys)
    ensures forall p :: Changed(old_, new_, p) ==> p[0] != ""
  {
    hide DiffAt, Lookup, Replay;
    NoKeyStartsDotted(changes, old_, new_, keys);
    forall p | Changed(old_, new_, p) ensures p[0] != "" {
      if p[0] == "" {
        EmptyFirstUntouched(old_, changes, keys, p);
        ChangeIsLookup(old_, new_, p);
      }
    }
  }

  // ---------------------------------------------------------------- dotted names

  // The names before the first dotted one.
  function Clean(p: Path): nat {
    if p == [] || '.' in p[0] then 0 else 1 + Clean(p[1..])
  }

  lemma {:induction false} CleanBound(p: Path)
    ensures Clean(p) <= |p| && (!DotFree(p) <==> Clean(p) < |p|)
  {
    if p != [] {
      assert p == [p[0]] + p[1..];
      if '.' in p[0] {
        assert p[0] in p;
      } else {
        CleanBound(p[1..]);
      }
    }
  }

  lemma {:induction false} CleanPrefix(p: Path, q: Path)
    requires q <= p && DotFree(q)
    ensures |q| <= Clean(p)
  {
    if q != [] {
      assert q[0] in q && q[0] == p[0];
      CleanPrefix(p[1..], q[1..]);
    }
  }

  lemma {:induction false} SplitLength(a: string, b: string)
    ensures |Split(a + "." + b)| == |Split(a)| + |Split(b)|
    ensures '.' in a ==> |Split(a)| >= 2
  {
    if a == "" {
      assert a + "." + b == "." + b;
    } else {
      assert (a + "." + b)[1..] == a[1..] + "." + b;
      SplitLength(a[1..], b);
    }
  }

  // A dotted name splits in two, so the key of a dotted path leads further down than the path.
  lemma {:induction false} SplitIsLonger(p: Path)
    requires p != []
    ensures |Split(Join(p))| >= |p|
    ensures Clean(p) < |p| ==> |Split(Join(p))| > |p|
    decreases |p|
  {
    hide Split;
    if |p| == 1 {
      SplitLength(p[0], "");
      PartsExist(p[0]);
    } else {
      SplitLength(p[0], Join(p[1..]));
      PartsExist(p[0]);
      SplitIsLonger(p[1..]);
    }
  }

  lemma PartsExist(s: string)
    ensures |Split(s)| >= 1
  {
  }

  // No changed path is dotted early, by induction on how early.
  lemma {:induction false} DottedOnlyAfter(changes: Changes, old_: Tree, new_: Tree, keys: seq<string>, n: nat)
    requires Rebuilds(changes, old_, new_, keys)
    requires forall p :: Changed(old_, new_, p) ==> p[0] != ""
    ensures forall p :: Changed(old_, new_, p) && !DotFree(p) ==> Clean(p) >= n
  {
    hide Rebuilds, DiffAt, Lookup, Split, DotFree, Clean, Left, ReportKey;
    if n > 0 {
      DottedOnlyAfter(changes, old_, new_, keys, n - 1);
      forall p | Changed(old_, new_, p) && !DotFree(p) ensures Clean(p) >= n {
        var key, r := Repaired(changes, old_, new_, keys, p);
        SplitDotFree(key);
        CleanPrefix(p, Split(key));
        ReportKeyUnder("", r);
        SplitIsLonger(r);
        CleanBound(r);
      }
    }
  }

  // Replaying every report, in any order and with any repetition, rebuilds the new tree exactly when every
  // changed path has a non-empty first name and no dots in its names.
  lemma ReplayRebuildsIff(changes: Changes, old_: Tree, new_: Tree, keys: seq<string>)
    requires IsReport(changes, old_, new_, "")
    requires forall key :: key in keys <==> key in changes
    ensures Replay(old_, changes, keys) == new_ <==> SoundChanges(old_, new_)
  {
    hide Replay, IsReportOn, DiffAt, DotFree;
    if SoundChanges(old_, new_) {
      SoundReplay(changes, old_, new_, keys);
    }
    if Replay(old_, changes, keys) == new_ {
      NoEmptyFirstName(changes, old_, new_, keys);
      forall p | Changed(old_, new_, p) ensures DotFree(p) {
        DottedOnlyAfter(changes, old_, new_, keys, |p|);
        CleanBound(p);
      }
    }
  }
}
