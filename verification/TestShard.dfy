// Deterministic whole-file sharding of a test collection.
module TestShard {
  import opened Options
  import opened Listing
  import opened Text

  // A collected test; path is its file relative to the root.
  datatype Test = Test(path: string, name: string)

  // ----- Configuration -----

  datatype Config = Unsharded | Sharded(index: nat, count: nat) | UsageError

  function Configure(index: Option<string>, count: Option<string>): (c: Config)
    ensures c.Sharded? ==> c.index < c.count
    ensures c.Unsharded? <==> index.None? && count.None?
    ensures c.Sharded? <==> index.Some? && count.Some? && exists i: nat, n: nat ::
                              i < n && IntOfText(index.value) == Some(i) && IntOfText(count.value) == Some(n)
  {
    if index.None? && count.None? then Unsharded
    else if index.None? || count.None? then UsageError
    else
      var i, n := IntOfText(index.value), IntOfText(count.value);
      if i.None? || n.None? then UsageError
      else if n.value <= 0 || !(0 <= i.value < n.value) then UsageError
      else Sharded(i.value, n.value)
  }

  // ----- Selection -----

  function Paths(items: seq<Test>): set<string> {
    set t | t in items :: t.path
  }

  function Files(items: seq<Test>): (r: seq<string>)
    ensures IsListing(StringLe, Paths(items), r)
  {
    StringLeIsTotal();
    SortedListing(StringLe, Paths(items))
  }

  // Every count-th file, from the index on.
  function Strided(files: seq<string>, index: nat, count: nat): seq<string>
    requires count > 0
    decreases |files| - index
  {
    if index >= |files| then [] else [files[index]] + Strided(files, index + count, count)
  }

  function Keep(items: seq<Test>, files: set<string>): seq<Test> {
    if items == [] then []
    else
      var front, last := Keep(items[..|items| - 1], files), items[|items| - 1];
      if last.path in files then front + [last] else front
  }

  function ShardFiles(items: seq<Test>, index: nat, count: nat): set<string>
    requires count > 0
  {
    set f | f in Strided(Files(items), index, count)
  }

  function Shard(items: seq<Test>, index: nat, count: nat): seq<Test>
    requires count > 0
  {
    Keep(items, ShardFiles(items, index, count))
  }

  class Collection {
    var items: seq<Test>
    var deselected: seq<Test>

    constructor (items: seq<Test>)
      ensures this.items == items && deselected == []
    {
      this.items, deselected := items, [];
    }

    // pytest_collection_modifyitems: the item list is replaced in place.
    method ModifyItems(config: Config)
      requires config.Sharded? ==> config.index < config.count
      modifies this
      ensures !config.Sharded? ==> items == old(items) && deselected == old(deselected)
      ensures config.Sharded? ==>
                && items == Shard(old(items), config.index, config.count)
                && deselected == Keep(old(items), Paths(old(items)) - ShardFiles(old(items), config.index, config.count))
    {
      if !config.Sharded? { return; }
      var files := Files(items);
      var chosen := set f | f in Strided(files, config.index, config.count);
      var selected, others := [], [];
      for i := 0 to |items|
        invariant items == old(items) && deselected == old(deselected)
        invariant selected == Keep(items[..i], chosen) && others == Keep(items[..i], Paths(items) - chosen)
      {
        assert items[..i + 1][..i] == items[..i] && items[i].path in Paths(items);
        if items[i].path in chosen { selected := selected + [items[i]]; } else { others := others + [items[i]]; }
      }
      assert items[..|items|] == items;
      items, deselected := selected, others;
    }
  }

  // ----- Which files a shard gets -----

  lemma {:induction false} StridedAt(files: seq<string>, index: nat, count: nat, m: nat)
    requires count > 0 && index + m * count < |files|
    ensures files[index + m * count] in Strided(files, index, count)
    decreases m
  {
    NextStride(index, count, m);
    if m > 0 { StridedAt(files, index + count, count, m - 1); }
  }

  lemma NextStride(index: nat, count: nat, m: nat)
    ensures m > 0 ==> index + m * count == index + count + (m - 1) * count
    ensures index <= index + m * count
  {
  }

  lemma {:induction false} StridedFrom(files: seq<string>, index: nat, count: nat, f: string) returns (m: nat)
    requires count > 0 && f in Strided(files, index, count)
    ensures index + m * count < |files| && files[index + m * count] == f
    decreases |files| - index
  {
    if f == files[index] {
      m := 0;
    } else {
      var rest := StridedFrom(files, index + count, count, f);
      m := rest + 1;
      NextStride(index, count, m);
    }
  }

  lemma Residue(index: nat, m: nat, count: nat)
    requires index < count
    ensures (index + m * count) % count == index
  {
    var k := index + m * count;
    assert k == (k / count) * count + k % count;
    if m < k / count { Ahead(m, k / count, count); }
    if m > k / count { Ahead(k / count, m, count); }
  }

  lemma Ahead(a: nat, b: nat, c: nat)
    requires a < b
    ensures a * c + c <= b * c
  {
    assert b * c == a * c + (b - a) * c;
    assert (b - a) * c == (b - a - 1) * c + c;
  }

  // The file of rank k goes to shard k modulo count, and to no other.
  lemma RankDecides(files: seq<string>, k: nat, index: nat, count: nat)
    requires index < count && k < |files| && forall i, j | 0 <= i < j < |files| :: files[i] != files[j]
    ensures files[k] in Strided(files, index, count) <==> k % count == index
  {
    hide Strided;
    if k % count == index {
      assert index + (k / count) * count == k;
      StridedAt(files, index, count, k / count);
    }
    if files[k] in Strided(files, index, count) {
      var m := StridedFrom(files, index, count, files[k]);
      assert index + m * count == k;
      Residue(index, m, count);
    }
  }

  ghost predicate GoesTo(items: seq<Test>, path: string, index: nat, count: nat)
    requires count > 0
  {
    path in ShardFiles(items, index, count)
  }

  // Every collected file is in exactly one shard; a shard has only collected files.
  lemma EveryFileInOneShard(items: seq<Test>, path: string, count: nat) returns (index: nat)
    requires count > 0 && path in Paths(items)
    ensures index < count && forall j: nat | j < count :: GoesTo(items, path, j, count) <==> j == index
  {
    hide Strided, Ascending;
    var files := Files(items);
    assert path in files;
    var k :| 0 <= k < |files| && files[k] == path;
    index := k % count;
    FilesDistinct(items);
    forall j: nat | j < count ensures GoesTo(items, path, j, count) <==> j == index { RankDecides(files, k, j, count); }
  }

  lemma FilesDistinct(items: seq<Test>)
    ensures forall i, j | 0 <= i < j < |Files(items)| :: Files(items)[i] != Files(items)[j]
  {
  }

  lemma ShardFilesAreCollected(items: seq<Test>, index: nat, count: nat)
    requires count > 0
    ensures ShardFiles(items, index, count) <= Paths(items)
  {
    hide Strided, Ascending;
    StridedFromTail(Files(items), index, count);
  }

  lemma {:induction false} StridedFromTail(files: seq<string>, index: nat, count: nat)
    requires count > 0
    ensures forall f | f in Strided(files, index, count) :: exists k :: index <= k < |files| && files[k] == f
    decreases |files| - index
  {
    if index < |files| {
      StridedFromTail(files, index + count, count);
      forall f | f in Strided(files, index, count) ensures exists k :: index <= k < |files| && files[k] == f {
        if f == files[index] {
          assert index <= index < |files|;
        } else {
          assert f in Strided(files, index + count, count);
        }
      }
    }
  }

  // ----- Balance -----

  lemma {:induction false} StrideLength(files: seq<string>, index: nat, count: nat)
    requires count > 0 && index < |files| + count
    ensures |files| <= index + |Strided(files, index, count)| * count < |files| + count
    decreases |files| + count - index
  {
    if index < |files| {
      StrideLength(files, index + count, count);
      var rest := |Strided(files, index + count, count)|;
      assert (rest + 1) * count == rest * count + count;
    }
  }

  lemma TwoAhead(a: nat, b: nat, c: nat)
    requires a + 1 < b
    ensures a * c + 2 * c <= b * c
  {
    Ahead(a, a + 1, c);
    Ahead(a + 1, b, c);
  }

  lemma ShardsAreBalanced(items: seq<Test>, i: nat, j: nat, count: nat)
    requires i < count && j < count
    ensures |Strided(Files(items), i, count)| <= |Strided(Files(items), j, count)| + 1
  {
    hide Strided, Files;
    var files := Files(items);
    StrideLength(files, i, count);
    StrideLength(files, j, count);
    var a, b := |Strided(files, i, count)|, |Strided(files, j, count)|;
    if a > b + 1 { TwoAhead(b, a, count); }
  }

  // The strided list has no repetition, so its length is the number of files of the shard.
  lemma {:induction false} StridedDistinct(files: seq<string>, index: nat, count: nat)
    requires count > 0 && forall i, j | 0 <= i < j < |files| :: files[i] != files[j]
    ensures |set f | f in Strided(files, index, count)| == |Strided(files, index, count)|
    decreases |files| - index
  {
    if index < |files| {
      StridedDistinct(files, index + count, count);
      var rest := Strided(files, index + count, count);
      StridedFromTail(files, index + count, count);
      assert files[index] !in rest;
      AddedToSet(files[index], rest);
    }
  }

  lemma AddedToSet(f: string, rest: seq<string>)
    requires f !in rest
    ensures |set x | x in [f] + rest| == |set x | x in rest| + 1
  {
    assert (set x | x in [f] + rest) == (set x | x in rest) + {f};
  }

  lemma FileCountsDifferByAtMostOne(items: seq<Test>, i: nat, j: nat, count: nat)
    requires i < count && j < count
    ensures |ShardFiles(items, i, count)| <= |ShardFiles(items, j, count)| + 1
  {
    hide Strided, Files;
    FilesDistinct(items);
    StridedDistinct(Files(items), i, count);
    StridedDistinct(Files(items), j, count);
    ShardsAreBalanced(items, i, j, count);
  }

  // ----- Conservation -----

  lemma {:induction false} KeepSplits(items: seq<Test>, a: set<string>, b: set<string>)
    requires a !! b
    ensures multiset(Keep(items, a + b)) == multiset(Keep(items, a)) + multiset(Keep(items, b))
  {
    if items != [] { KeepSplits(items[..|items| - 1], a, b); }
  }

  lemma {:induction false} KeepAll(items: seq<Test>, files: set<string>)
    requires Paths(items) <= files
    ensures Keep(items, files) == items
  {
    if items != [] {
      var front, last := items[..|items| - 1], items[|items| - 1];
      assert last.path in Paths(items) && Paths(front) <= Paths(items);
      KeepAll(front, files);
      assert items == front + [last];
    }
  }

  function ShardsUnion(items: seq<Test>, k: nat, count: nat): multiset<Test>
    requires count > 0
  {
    if k == 0 then multiset{} else ShardsUnion(items, k - 1, count) + multiset(Shard(items, k - 1, count))
  }

  function FirstFiles(items: seq<Test>, k: nat, count: nat): set<string>
    requires count > 0
  {
    if k == 0 then {} else FirstFiles(items, k - 1, count) + ShardFiles(items, k - 1, count)
  }

  lemma {:induction false} FirstFilesHas(items: seq<Test>, k: nat, count: nat, f: string, j: nat)
    requires count > 0 && j < k && f in ShardFiles(items, j, count)
    ensures f in FirstFiles(items, k, count)
  {
    hide ShardFiles;
    if j < k - 1 { FirstFilesHas(items, k - 1, count, f, j); }
  }

  lemma {:induction false} FirstFilesFrom(items: seq<Test>, k: nat, count: nat, f: string) returns (j: nat)
    requires count > 0 && f in FirstFiles(items, k, count)
    ensures j < k && f in ShardFiles(items, j, count)
  {
    hide ShardFiles;
    if f in ShardFiles(items, k - 1, count) { j := k - 1; } else { j := FirstFilesFrom(items, k - 1, count, f); }
  }

  lemma {:induction false} ShardsUnionIsKeep(items: seq<Test>, k: nat, count: nat)
    requires count > 0 && k <= count
    ensures ShardsUnion(items, k, count) == multiset(Keep(items, FirstFiles(items, k, count)))
  {
    hide ShardFiles;
    if k == 0 {
      KeepNone(items);
    } else {
      ShardsUnionIsKeep(items, k - 1, count);
      var before, next := FirstFiles(items, k - 1, count), ShardFiles(items, k - 1, count);
      FirstFilesAreOthers(items, k - 1, count);
      KeepSplits(items, before, next);
    }
  }

  lemma FirstFilesAreOthers(items: seq<Test>, k: nat, count: nat)
    requires k < count
    ensures FirstFiles(items, k, count) !! ShardFiles(items, k, count)
  {
    hide ShardFiles, Paths, FirstFiles;
    ShardFilesAreCollected(items, k, count);
    forall f | f in FirstFiles(items, k, count) ensures f !in ShardFiles(items, k, count) {
      var j := FirstFilesFrom(items, k, count, f);
      ShardFilesAreCollected(items, j, count);
      var index := EveryFileInOneShard(items, f, count);
      assert GoesTo(items, f, j, count);
      assert j == index;
      assert GoesTo(items, f, k, count) <==> k == index;
    }
  }

  lemma {:induction false} KeepNone(items: seq<Test>)
    ensures Keep(items, {}) == []
  {
    if items != [] { KeepNone(items[..|items| - 1]); }
  }

  // Together the shards hold every collected test exactly as often as it was collected.
  lemma ShardsPartitionTheTests(items: seq<Test>, count: nat)
    requires count > 0
    ensures ShardsUnion(items, count, count) == multiset(items)
  {
    hide Keep, ShardsUnion, FirstFiles, Paths;
    ShardsUnionIsKeep(items, count, count);
    forall f | f in Paths(items) ensures f in FirstFiles(items, count, count) {
      var index := EveryFileInOneShard(items, f, count);
      assert GoesTo(items, f, index, count);
      FirstFilesHas(items, count, count, f, index);
    }
    KeepAll(items, FirstFiles(items, count, count));
  }

  // ----- Order -----

  ghost predicate Picks(items: seq<Test>, kept: seq<Test>, at: seq<nat>) {
    |at| == |kept| && forall k | 0 <= k < |at| :: at[k] < |items| && items[at[k]] == kept[k]
  }

  ghost predicate Rising(at: seq<nat>, bound: nat) {
    (forall k | 0 <= k < |at| :: at[k] < bound) && forall k, l | 0 <= k < l < |at| :: at[k] < at[l]
  }

  ghost predicate PicksExactly(items: seq<Test>, files: set<string>, at: seq<nat>) {
    forall i: nat | i < |items| :: i in at <==> items[i].path in files
  }

  lemma PicksStep(items: seq<Test>, kept: seq<Test>, at: seq<nat>, last: Test)
    requires Picks(items, kept, at)
    ensures Picks(items + [last], kept, at) && Picks(items + [last], kept + [last], at + [|items|])
  {
  }

  lemma ExactStep(items: seq<Test>, files: set<string>, at: seq<nat>, last: Test)
    requires PicksExactly(items, files, at) && forall k | 0 <= k < |at| :: at[k] < |items|
    ensures PicksExactly(items + [last], files, if last.path in files then at + [|items|] else at)
  {
    var more := if last.path in files then at + [|items|] else at;
    forall i: nat | i < |items| + 1 ensures i in more <==> (items + [last])[i].path in files {
      assert i in more <==> i in at || (i == |items| && last.path in files);
    }
  }

  lemma RisingStep(at: seq<nat>, n: nat)
    requires Rising(at, n)
    ensures Rising(at, n + 1) && Rising(at + [n], n + 1)
  {
  }

  lemma KeepStep(front: seq<Test>, last: Test, files: set<string>)
    ensures Keep(front + [last], files) == if last.path in files then Keep(front, files) + [last] else Keep(front, files)
  {
    assert (front + [last])[..|front|] == front;
  }

  // The selection keeps the collection order and takes exactly the tests of its files.
  lemma {:induction false} KeepIsASubsequence(items: seq<Test>, files: set<string>) returns (at: seq<nat>)
    ensures Picks(items, Keep(items, files), at) && Rising(at, |items|) && PicksExactly(items, files, at)
  {
    if items == [] {
      at := [];
    } else {
      at := KeepIsASubsequence(items[..|items| - 1], files);
      at := OneMorePick(items[..|items| - 1], items[|items| - 1], files, at);
      assert items == items[..|items| - 1] + [items[|items| - 1]];
    }
  }

  lemma OneMorePick(front: seq<Test>, last: Test, files: set<string>, at: seq<nat>) returns (more: seq<nat>)
    requires Picks(front, Keep(front, files), at) && Rising(at, |front|) && PicksExactly(front, files, at)
    ensures var items := front + [last];
            Picks(items, Keep(items, files), more) && Rising(more, |items|) && PicksExactly(items, files, more)
  {
    hide Picks, PicksExactly, Keep;
    KeepStep(front, last, files);
    PicksStep(front, Keep(front, files), at, last);
    RisingStep(at, |front|);
    ExactStep(front, files, at, last);
    more := if last.path in files then at + [|front|] else at;
  }

  // The files of a shard depend on the set of paths only, not on the collection order.
  lemma OrderDoesNotMatter(a: seq<Test>, b: seq<Test>, index: nat, count: nat)
    requires count > 0 && Paths(a) == Paths(b)
    ensures ShardFiles(a, index, count) == ShardFiles(b, index, count)
    ensures multiset(a) == multiset(b) ==> multiset(Shard(a, index, count)) == multiset(Shard(b, index, count))
  {
    if multiset(a) == multiset(b) { KeepCommutes(a, b, ShardFiles(a, index, count)); }
  }

  lemma {:induction false} KeepCounts(items: seq<Test>, files: set<string>, t: Test)
    ensures multiset(Keep(items, files))[t] == if t.path in files then multiset(items)[t] else 0
  {
    if items != [] {
      var front, last := items[..|items| - 1], items[|items| - 1];
      KeepCounts(front, files, t);
      assert items == front + [last];
    }
  }

  lemma KeepCommutes(a: seq<Test>, b: seq<Test>, files: set<string>)
    requires multiset(a) == multiset(b)
    ensures multiset(Keep(a, files)) == multiset(Keep(b, files))
  {
    forall t ensures multiset(Keep(a, files))[t] == multiset(Keep(b, files))[t] {
      KeepCounts(a, files, t);
      KeepCounts(b, files, t);
    }
  }
}
