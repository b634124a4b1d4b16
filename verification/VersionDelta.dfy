// version_comparison: what changed between an earlier source version and this one.
module VersionDelta {
  import opened Options
  import opened Listing
  import opened Text
  import opened JsonValues
  import SourceManifest
  import SourceInventory

  const KIND := "spina_bir_source_version"

  datatype Entry = Entry(blob: string, sha256: string, size: nat, mode: string)

  datatype Version = Version(sha: string, files: map<string, Entry>)

  datatype Delta = Delta(previous: Json, current: string, added: seq<string>, removed: seq<string>, changed: seq<string>)

  function EntryJson(e: Entry): Json {
    JObj(map["git_blob" := JStr(e.blob), "sha256" := JStr(e.sha256), "bytes" := JInt(e.size), "mode" := JStr(e.mode)])
  }

  // ----- The comparison -----

  predicate PlainName(name: string) {
    && SourceManifest.Relevant(name)
    && (forall part | part in Split(name, '/') :: part != ".." && part != "")
    && '\\' !in name
  }

  predicate ValidRecord(name: string, record: Json) {
    PlainName(name) && record.JObj? && HexText(GetText(record.fields, "sha256"), 64)
  }

  predicate ValidHeader(previous: Json) {
    && previous.JObj?
    && Same(Get(previous.fields, "schema_version"), JInt(1))
    && Same(Get(previous.fields, "kind"), JStr(KIND))
    && HexText(GetText(previous.fields, "source_sha"), 40)
    && Get(previous.fields, "files").JObj?
  }

  function PriorFiles(previous: Json): map<string, Json>
    requires ValidHeader(previous)
  {
    Get(previous.fields, "files").fields
  }

  predicate ValidPrior(previous: Json) {
    ValidHeader(previous) && forall n | n in PriorFiles(previous) :: ValidRecord(n, PriorFiles(previous)[n])
  }

  predicate Unchanged(before: map<string, Json>, after: map<string, Entry>, name: string) {
    name in before && name in after && Same(before[name], EntryJson(after[name]))
  }

  function ChangedNames(before: map<string, Json>, after: map<string, Entry>): set<string> {
    set n | n in before.Keys * after.Keys && !Unchanged(before, after, n)
  }

  function Sorted(names: set<string>): (r: seq<string>)
    ensures IsListing(StringLe, names, r)
  {
    StringLeIsTotal();
    SortedListing(StringLe, names)
  }

  lemma SortedNames(names: set<string>)
    ensures forall n :: n in Sorted(names) <==> n in names
  {
  }

  function DeltaOf(previous: Json, current: Version): Delta
    requires ValidHeader(previous)
  {
    var before, after := PriorFiles(previous), current.files;
    Delta(Get(previous.fields, "source_sha"), current.sha,
          Sorted(after.Keys - before.Keys), Sorted(before.Keys - after.Keys), Sorted(ChangedNames(before, after)))
  }

  // None is a refusal.
  function Compare(previous: Json, current: Version): Option<Delta> {
    if ValidPrior(previous) then Some(DeltaOf(previous, current)) else None
  }

  method VersionComparison(previous: Json, current: Version) returns (delta: Option<Delta>)
    ensures delta == Compare(previous, current)
  {
    if !ValidHeader(previous) { return None; }
    var before := PriorFiles(previous);
    var unchecked := before.Keys;
    while unchecked != {}
      invariant unchecked <= before.Keys
      invariant forall n | n in before.Keys - unchecked :: ValidRecord(n, before[n])
      decreases unchecked
    {
      var name :| name in unchecked;
      if !ValidRecord(name, before[name]) { return None; }
      unchecked := unchecked - {name};
    }
    return Some(DeltaOf(previous, current));
  }

  // ----- What a delta says -----

  // The three lists are sorted, share no name, and name exactly the differing paths.
  lemma DeltaIsExact(previous: Json, current: Version)
    requires ValidPrior(previous)
    ensures var d, before, after := DeltaOf(previous, current), PriorFiles(previous), current.files;
            && Ascending(StringLe, d.added) && Ascending(StringLe, d.removed) && Ascending(StringLe, d.changed)
            && (forall n :: n in d.added <==> n in after && n !in before)
            && (forall n :: n in d.removed <==> n in before && n !in after)
            && (forall n :: n in d.changed <==> n in before && n in after && !Unchanged(before, after, n))
            && (forall n :: n !in d.added + d.removed + d.changed <==>
                  (n !in before && n !in after) || Unchanged(before, after, n))
  {
    hide Same;
    var d, before, after := DeltaOf(previous, current), PriorFiles(previous), current.files;
    forall n ensures n in d.added <==> n in after && n !in before {
      assert n in d.added <==> n in after.Keys - before.Keys;
    }
    forall n ensures n in d.removed <==> n in before && n !in after {
      assert n in d.removed <==> n in before.Keys - after.Keys;
    }
    forall n ensures n in d.changed <==> n in before && n in after && !Unchanged(before, after, n) {
      assert n in d.changed <==> n in ChangedNames(before, after);
    }
  }

  // Drop the removed names, and take the added and changed ones from the update.
  function Patched(before: map<string, Json>, d: Delta, update: map<string, Json>): map<string, Json>
    requires forall n | n in d.added || n in d.changed :: n in update
  {
    map n | n in before.Keys + update.Keys && n !in d.removed && (n in before || n in d.added || n in d.changed)
      :: if n in d.added || n in d.changed then update[n] else before[n]
  }

  // The delta with the entries of its added and changed names is enough to get the new
  // inventory out of the earlier one.
  lemma PatchGivesTheNewInventory(previous: Json, current: Version, update: map<string, Json>)
    requires ValidPrior(previous)
    requires var d := DeltaOf(previous, current);
             forall n | n in d.added || n in d.changed ::
               n in update && n in current.files && update[n] == EntryJson(current.files[n])
    ensures var patched := Patched(PriorFiles(previous), DeltaOf(previous, current), update);
            && patched.Keys == current.files.Keys
            && (forall n | n in current.files :: Same(patched[n], EntryJson(current.files[n])))
  {
    hide DeltaOf, Same, ValidRecord, Ascending, EntryJson;
    DeltaIsExact(previous, current);
    var d, before, after := DeltaOf(previous, current), PriorFiles(previous), current.files;
    var patched := Patched(before, d, update);
    forall n | n in after ensures n in patched && Same(patched[n], EntryJson(after[n])) {
      if n !in d.added && n !in d.changed {
        assert Unchanged(before, after, n);
      } else {
        SameEntry(after[n], after[n]);
      }
    }
  }

  // ----- Manifests this tool wrote itself -----

  function FilesJson(files: map<string, Entry>): map<string, Json> {
    map n | n in files :: EntryJson(files[n])
  }

  // The manifest document of a version; rest stands for its other members.
  function Written(v: Version, rest: map<string, Json>): Json {
    JObj(rest["schema_version" := JInt(1)]["kind" := JStr(KIND)]["source_sha" := JStr(v.sha)]["files" := JObj(FilesJson(v.files))])
  }

  predicate Digested(v: Version) {
    IsHex(v.sha, 40) && forall n | n in v.files :: IsHex(v.files[n].sha256, 64)
  }

  lemma WrittenHeader(v: Version, rest: map<string, Json>)
    requires Digested(v)
    ensures ValidHeader(Written(v, rest)) && PriorFiles(Written(v, rest)) == FilesJson(v.files)
  {
  }

  // A manifest the tool wrote is accepted later exactly when all its names are plain.
  lemma WrittenIsAcceptedIffNamesArePlain(v: Version, rest: map<string, Json>, current: Version)
    requires Digested(v)
    ensures Compare(Written(v, rest), current).Some? <==> forall n | n in v.files :: PlainName(n)
  {
    hide PlainName, IsHex;
    WrittenHeader(v, rest);
    var w := Written(v, rest);
    forall n | n in v.files ensures ValidRecord(n, PriorFiles(w)[n]) <==> PlainName(n) {
      assert PriorFiles(w)[n] == EntryJson(v.files[n]);
    }
    if forall n | n in v.files :: PlainName(n) {
      assert forall n | n in PriorFiles(w) :: ValidRecord(n, PriorFiles(w)[n]);
    }
    if Compare(w, current).Some? {
      forall n | n in v.files ensures PlainName(n) { assert n in PriorFiles(w); }
    }
  }

  // git allows a backslash in a file name; such a version is refused as a prior one.
  lemma BackslashNamesAreRefused(v: Version, rest: map<string, Json>, current: Version, name: string)
    requires Digested(v) && name in v.files && '\\' in name
    ensures Compare(Written(v, rest), current) == None
  {
    WrittenIsAcceptedIffNamesArePlain(v, rest, current);
    assert !PlainName(name);
  }

  lemma SameEntry(a: Entry, b: Entry)
    ensures Same(EntryJson(a), EntryJson(b)) <==> a == b
  {
    var x, y := EntryJson(a).fields, EntryJson(b).fields;
    if Same(EntryJson(a), EntryJson(b)) {
      assert Same(x["git_blob"], y["git_blob"]) && Same(x["sha256"], y["sha256"]);
      assert Same(x["bytes"], y["bytes"]) && Same(x["mode"], y["mode"]);
      assert a.size as real == b.size as real;
    }
  }

  ghost predicate Between(d: Delta, a: map<string, Entry>, b: map<string, Entry>) {
    && (forall n :: n in d.added <==> n in b && n !in a)
    && (forall n :: n in d.removed <==> n in a && n !in b)
    && (forall n :: n in d.changed <==> n in a && n in b && a[n] != b[n])
  }

  lemma ChangedMeansDifferent(a: map<string, Entry>, b: map<string, Entry>)
    ensures ChangedNames(FilesJson(a), b) == set n | n in a.Keys * b.Keys && a[n] != b[n]
  {
    hide Same, EntryJson;
    forall n | n in a && n in b ensures Unchanged(FilesJson(a), b, n) <==> a[n] == b[n] {
      SameEntry(a[n], b[n]);
    }
  }

  lemma WrittenLists(a: Version, rest: map<string, Json>, b: Version)
    requires Digested(a)
    ensures ValidHeader(Written(a, rest))
    ensures var d := DeltaOf(Written(a, rest), b);
            && d.added == Sorted(b.files.Keys - a.files.Keys) && d.removed == Sorted(a.files.Keys - b.files.Keys)
            && d.changed == Sorted(set n | n in a.files.Keys * b.files.Keys && a.files[n] != b.files[n])
  {
    hide Digested, ValidHeader, Written, ChangedNames, Sorted;
    WrittenHeader(a, rest);
    ChangedMeansDifferent(a.files, b.files);
    assert FilesJson(a.files).Keys == a.files.Keys;
  }

  lemma WrittenDelta(a: Version, rest: map<string, Json>, b: Version)
    requires Compare(Written(a, rest), b).Some? && Digested(a)
    ensures Between(Compare(Written(a, rest), b).value, a.files, b.files)
  {
    hide Digested, ValidPrior, Written, DeltaOf, IsListing;
    WrittenLists(a, rest, b);
    SortedNames(b.files.Keys - a.files.Keys);
    SortedNames(a.files.Keys - b.files.Keys);
    SortedNames(set n | n in a.files.Keys * b.files.Keys && a.files[n] != b.files[n]);
  }

  function Touched(d: Delta): set<string> {
    (set n | n in d.added) + (set n | n in d.removed) + (set n | n in d.changed)
  }

  // Comparing the other way round swaps added and removed, list for list.
  lemma SwapMirrors(a: Version, b: Version, rest: map<string, Json>)
    requires Digested(a) && Digested(b)
    requires Compare(Written(a, rest), b).Some? && Compare(Written(b, rest), a).Some?
    ensures var d, e := Compare(Written(a, rest), b).value, Compare(Written(b, rest), a).value;
            d.added == e.removed && d.removed == e.added && d.changed == e.changed
  {
    hide ValidPrior, Sorted, Digested, Written, DeltaOf;
    WrittenLists(a, rest, b);
    WrittenLists(b, rest, a);
    assert (set n | n in a.files.Keys * b.files.Keys && a.files[n] != b.files[n])
        == (set n | n in b.files.Keys * a.files.Keys && b.files[n] != a.files[n]);
  }

  // The delta is empty exactly when the two inventories are equal.
  lemma EmptyIffEqual(a: Version, rest: map<string, Json>, b: Version)
    requires Digested(a) && Compare(Written(a, rest), b).Some?
    ensures Touched(Compare(Written(a, rest), b).value) == {} <==> a.files == b.files
  {
    hide Compare, Digested;
    WrittenDelta(a, rest, b);
    var d := Compare(Written(a, rest), b).value;
    if Touched(d) == {} {
      forall n ensures (n in a.files <==> n in b.files) && (n in a.files && n in b.files ==> a.files[n] == b.files[n]) {
        assert n !in Touched(d);
      }
    }
  }

  // Every path that differs over two steps differs over one of them.
  lemma DeltasCompose(a: Version, b: Version, c: Version, rest: map<string, Json>)
    requires Digested(a) && Digested(b) && Compare(Written(a, rest), b).Some? && Compare(Written(b, rest), c).Some?
    ensures Compare(Written(a, rest), c).Some?
    ensures Touched(Compare(Written(a, rest), c).value)
            <= Touched(Compare(Written(a, rest), b).value) + Touched(Compare(Written(b, rest), c).value)
  {
    hide Between, ValidPrior, Digested;
    WrittenDelta(a, rest, b);
    WrittenDelta(b, rest, c);
    WrittenDelta(a, rest, c);
    TouchedDiffer(Compare(Written(a, rest), b).value, a.files, b.files);
    TouchedDiffer(Compare(Written(b, rest), c).value, b.files, c.files);
    TouchedDiffer(Compare(Written(a, rest), c).value, a.files, c.files);
  }

  predicate Agree(a: map<string, Entry>, b: map<string, Entry>, n: string) {
    (n in a <==> n in b) && (n in a && n in b ==> a[n] == b[n])
  }

  lemma TouchedDiffer(d: Delta, a: map<string, Entry>, b: map<string, Entry>)
    requires Between(d, a, b)
    ensures forall n :: n in Touched(d) <==> !Agree(a, b, n)
  {
  }

  // ----- Inventories built from commits -----

  function Described(f: SourceInventory.File, digest: string -> string): Entry {
    Entry(f.blob, digest(f.content), f.size, f.mode)
  }

  function VersionOf(sha: string, m: SourceInventory.Manifest, digest: string -> string): Version {
    Version(sha, map n | n in m.files :: Described(m.files[n], digest))
  }

  // Between two commits, where the digest separates the contents: a file kept in both and not
  // listed as changed has the same bytes, and one listed has another blob, mode, size or content.
  lemma UnlistedFilesKeepTheirBytes(x: SourceInventory.Manifest, y: SourceInventory.Manifest, shaX: string, shaY: string,
                                    digest: string -> string, rest: map<string, Json>, n: string)
    requires Digested(VersionOf(shaX, x, digest)) && n in x.files && n in y.files
    requires digest(x.files[n].content) == digest(y.files[n].content) ==> x.files[n].content == y.files[n].content
    requires Compare(Written(VersionOf(shaX, x, digest), rest), VersionOf(shaY, y, digest)).Some?
    ensures n in Compare(Written(VersionOf(shaX, x, digest), rest), VersionOf(shaY, y, digest)).value.changed
            <==> x.files[n] != y.files[n]
  {
    hide Compare, Digested;
    WrittenDelta(VersionOf(shaX, x, digest), rest, VersionOf(shaY, y, digest));
  }
}
